/** The booking page of src/pages/LocationBooking.tsx: the venue is looked
    up by the `id` query parameter, the group size comes from a number
    input through `parseInt(value) || 1`, the total is price times group
    size, and a booking is refused unless date, time, name and e-mail are
    filled in; an accepted booking produces a confirmed record. */
module LocationBooking {
  import opened Wrappers
  import opened Seqs

  datatype Location = Location(
    id: string,
    name: string,
    kind: string,
    address: string,
    price: int,
    amenities: seq<string>)

  function SampleLocations(): seq<Location> {
    [ Location("1", "Escape Universe", "Escape Room", "Hauptstraße 123, München", 29,
               ["Parkplätze", "Getränke", "Fotoshooting"]),
      Location("2", "Party Basement", "Partykeller", "Kellerstraße 45, München", 150,
               ["Sound-System", "Karaoke", "Bar", "Lichtshow"]),
      Location("3", "Craft Beer Garden", "Bar", "Bierstraße 78, München", 45,
               ["50+ Biere", "Live-Musik", "Snacks", "Terrasse"]) ]
  }

  /** The first catalog venue whose id equals the query parameter; a
      missing parameter matches no venue. `None` is the
      "Location nicht gefunden" view. */
  function FindLocation(c: seq<Location>, locationId: Option<string>): (r: Option<Location>)
    ensures r.None? <==> locationId.None? || forall l :: l in c ==> l.id != locationId.value
    ensures r.Some? ==>
      && locationId.Some?
      && exists i :: 0 <= i < |c| && c[i] == r.value && c[i].id == locationId.value
           && forall j :: 0 <= j < i ==> c[j].id != locationId.value
  {
    var i := FirstIndex(c, (l: Location) => Some(l.id) == locationId);
    if i < |c| then Some(c[i]) else None
  }

  function TotalPrice(price: int, groupSize: int): int {
    price * groupSize
  }

  // ---- Group size: `parseInt(e.target.value) || 1` ----

  predicate IsDigit(c: char) {
    '0' <= c <= '9'
  }

  /** The characters `parseInt` skips before the number: the white space
      and line terminators of ECMAScript. Tab, LF, vertical tab, form feed
      and CR are the code points 9 to 13. */
  predicate IsSpace(c: char) {
    || ('\t' <= c <= '\r')
    || c == ' '
    || ('\U{00A0}' <= c && IsWideSpace(c))
  }

  /** The white space and line terminators beyond ASCII. */
  predicate IsWideSpace(c: char) {
    || c == '\U{00A0}' || c == '\U{FEFF}' || c == '\U{1680}'
    || ('\U{2000}' <= c <= '\U{200A}')
    || c == '\U{202F}' || c == '\U{205F}' || c == '\U{3000}'
    || c == '\U{2028}' || c == '\U{2029}'
  }

  function TrimStart(s: string): (r: string)
    ensures r == [] || !IsSpace(r[0])
    ensures |r| <= |s|
  {
    if s != [] && IsSpace(s[0]) then TrimStart(s[1..]) else s
  }

  predicate AllDigits(s: string) {
    forall i :: 0 <= i < |s| ==> IsDigit(s[i])
  }

  /** The longest prefix of decimal digits. */
  function LeadingDigits(s: string): (d: string)
    ensures d <= s
    ensures AllDigits(d)
    ensures |d| < |s| ==> !IsDigit(s[|d|])
  {
    if s != [] && IsDigit(s[0]) then [s[0]] + LeadingDigits(s[1..]) else []
  }

  function DigitValue(c: char): nat
    requires IsDigit(c)
  {
    c as int - '0' as int
  }

  /** The value of a string of decimal digits, read left to right. */
  function DigitsValue(d: string): nat
    requires AllDigits(d)
  {
    if d == [] then 0 else DigitsValue(d[..|d| - 1]) * 10 + DigitValue(d[|d| - 1])
  }

  /** `parseInt(s)` in base 10: leading white space, an optional sign, then
      the longest run of digits; no digit at all is NaN (`None`). */
  function ParseInt(s: string): Option<int> {
    ParseSigned(TrimStart(s))
  }

  /** An optional sign followed by the digit run. */
  function ParseSigned(t: string): Option<int> {
    if t != [] && t[0] == '-' then
      match ParseDigitRun(t[1..])
      case None => None
      case Some(v) => Some(-(v as int))
    else if t != [] && t[0] == '+' then ParseDigitRun(t[1..])
    else ParseDigitRun(t)
  }

  /** The value of the longest run of leading digits; NaN when there is none. */
  function ParseDigitRun(body: string): Option<nat> {
    var digits := LeadingDigits(body);
    if digits == [] then None else Some(DigitsValue(digits))
  }

  /** `parseInt(value) || 1`: NaN and zero become 1, every other value
      (negative or above the input's max of 20 included) passes through. */
  function GroupSizeFromInput(value: string): (n: int)
    ensures n != 0
    ensures ParseInt(value).Some? && ParseInt(value).value != 0 ==> n == ParseInt(value).value
    ensures ParseInt(value).None? || ParseInt(value) == Some(0) ==> n == 1
  {
    match ParseInt(value)
    case None => 1
    case Some(v) => if v == 0 then 1 else v
  }

  function DigitChar(d: nat): char
    requires d < 10
  {
    ('0' as int + d) as char
  }

  /** The decimal rendering of `n` that a number input holds. */
  function Decimal(n: nat): (s: string)
    ensures s != [] && AllDigits(s)
  {
    if n < 10 then [DigitChar(n)] else Decimal(n / 10) + [DigitChar(n % 10)]
  }

  lemma {:induction false} DecimalValue(n: nat)
    ensures DigitsValue(Decimal(n)) == n
  {
    var s := Decimal(n);
    if n < 10 {
      assert s[..|s| - 1] == [];
    } else {
      assert s[..|s| - 1] == Decimal(n / 10);
      DecimalValue(n / 10);
    }
  }

  lemma {:induction false} LeadingDigitsOfDigits(s: string)
    requires AllDigits(s)
    ensures LeadingDigits(s) == s
  {
    if s != [] {
      LeadingDigitsOfDigits(s[1..]);
    }
  }

  /** A non-empty run of digits of value n parses to n, and to -n behind a minus sign. */
  lemma ParseDigits(s: string, n: nat)
    requires s != [] && AllDigits(s) && DigitsValue(s) == n
    ensures ParseInt(s) == Some(n)
    ensures ParseInt("-" + s) == Some(-(n as int))
  {
    LeadingDigitsOfDigits(s);
    assert IsDigit(s[0]);
    assert TrimStart(s) == s;
    var m := "-" + s;
    assert m[0] == '-';
    assert TrimStart(m) == m;
    assert m[1..] == s;
  }

  /** `parseInt` reads back the decimal rendering of every natural number,
      with or without a minus sign. */
  lemma ParseDecimal(n: nat)
    ensures ParseInt(Decimal(n)) == Some(n)
    ensures ParseInt("-" + Decimal(n)) == Some(-(n as int))
  {
    DecimalValue(n);
    ParseDigits(Decimal(n), n);
  }

  /** White space, an optional sign, a non-empty run of digits and a tail
      that does not start with a digit: `parseInt` returns the signed value
      of the run and ignores the tail. */
  lemma ParseIntShape(ws: string, sign: string, digits: string, tail: string, n: nat)
    requires forall i :: 0 <= i < |ws| ==> IsSpace(ws[i])
    requires sign == "" || sign == "+" || sign == "-"
    requires digits != [] && AllDigits(digits) && DigitsValue(digits) == n
    requires tail == [] || !IsDigit(tail[0])
    ensures ParseInt(ws + sign + digits + tail) == Some(if sign == "-" then -(n as int) else n)
  {
    var body := digits + tail;
    var rest := sign + body;
    assert ws + sign + digits + tail == ws + rest;
    DigitRun(digits, tail);
    SkipSpaces(ws, rest);
    if sign == "" {
      assert rest == body;
      UnsignedRun(body);
    } else if sign == "-" {
      assert rest == ['-'] + body;
      SignedRun('-', body);
    } else {
      assert rest == ['+'] + body;
      SignedRun('+', body);
    }
  }

  /** `parseInt` skips the white space in front of a sign or a digit. */
  lemma SkipSpaces(ws: string, rest: string)
    requires forall i :: 0 <= i < |ws| ==> IsSpace(ws[i])
    requires rest != [] && (rest[0] == '-' || rest[0] == '+' || IsDigit(rest[0]))
    ensures ParseInt(ws + rest) == ParseSigned(rest)
  {
    TrimSpaces(ws, rest);
  }

  /** A non-empty run of digits followed by a non-digit is read as the run. */
  lemma DigitRun(digits: string, tail: string)
    requires digits != [] && AllDigits(digits)
    requires tail == [] || !IsDigit(tail[0])
    ensures ParseDigitRun(digits + tail) == Some(DigitsValue(digits))
    ensures IsDigit((digits + tail)[0])
  {
    LeadingDigitsStop(digits, tail);
  }

  /** Without a sign the digit run is read as it is. */
  lemma UnsignedRun(body: string)
    requires body != [] && IsDigit(body[0])
    ensures ParseSigned(body) == ParseDigitRun(body)
  {
  }

  /** A sign in front of the digit run: minus negates, plus does nothing. */
  lemma SignedRun(sign: char, body: string)
    requires sign == '-' || sign == '+'
    ensures ParseSigned([sign] + body)
         == if sign == '+' then ParseDigitRun(body)
            else match ParseDigitRun(body) case None => None case Some(v) => Some(-(v as int))
  {
    assert ([sign] + body)[1..] == body;
  }

  /** White space, an optional sign and no digit after it: NaN. */
  lemma ParseIntNaN(ws: string, sign: string, tail: string)
    requires forall i :: 0 <= i < |ws| ==> IsSpace(ws[i])
    requires sign == "" || sign == "+" || sign == "-"
    requires tail == [] || (!IsDigit(tail[0]) && (sign == "" ==> !IsSpace(tail[0]) && tail[0] != '-' && tail[0] != '+'))
    ensures ParseInt(ws + sign + tail) == None
  {
    var rest := sign + tail;
    assert ws + sign + tail == ws + rest;
    assert LeadingDigits(tail) == [];
    if sign != "" {
      assert rest[0] == sign[0] && !IsSpace(rest[0]);
      TrimSpaces(ws, rest);
      assert rest[1..] == tail;
    } else {
      assert rest == tail;
      TrimSpaces(ws, rest);
    }
  }

  /** Leading white space is skipped up to the first other character. */
  lemma {:induction false} TrimSpaces(ws: string, rest: string)
    requires forall i :: 0 <= i < |ws| ==> IsSpace(ws[i])
    requires rest == [] || !IsSpace(rest[0])
    ensures TrimStart(ws + rest) == rest
  {
    if ws != [] {
      assert (ws + rest)[1..] == ws[1..] + rest;
      TrimSpaces(ws[1..], rest);
    }
  }

  /** The digit run ends where the first non-digit begins. */
  lemma {:induction false} LeadingDigitsStop(digits: string, tail: string)
    requires AllDigits(digits)
    requires tail == [] || !IsDigit(tail[0])
    ensures LeadingDigits(digits + tail) == digits
  {
    if digits != [] {
      assert (digits + tail)[1..] == digits[1..] + tail;
      LeadingDigitsStop(digits[1..], tail);
    }
  }

  /** Digits followed by letters: the letters are ignored. */
  lemma ParseIntStopsAtLetters()
    ensures ParseInt("12abc") == Some(12)
  {
    assert DigitsValue("12") == 12 by {
      assert "12"[..1] == "1";
      assert "1"[..0] == [];
    }
    ParseIntShape("", "", "12", "abc", 12);
    assert "" + "" + "12" + "abc" == "12abc";
  }

  /** A plus sign is accepted, and a minus sign after white space negates. */
  lemma ParseIntSigns()
    ensures ParseInt("+5") == Some(5)
    ensures ParseInt(" \t-7") == Some(-7)
  {
    assert DigitsValue("5") == 5 by { assert "5"[..0] == []; }
    ParseIntShape("", "+", "5", "", 5);
    assert "" + "+" + "5" + "" == "+5";
    assert DigitsValue("7") == 7 by { assert "7"[..0] == []; }
    ParseIntShape(" \t", "-", "7", "", 7);
    assert " \t" + "-" + "7" + "" == " \t-7";
  }

  /** A lone sign, a sign parted from its digits and a word without digits
      are NaN. */
  lemma ParseIntWithoutDigits()
    ensures ParseInt("-") == None
    ensures ParseInt("- 5") == None
    ensures ParseInt("abc") == None
  {
    ParseIntNaN("", "-", " 5");
    assert "" + "-" + " 5" == "- 5";
    ParseIntNaN("", "-", "");
    assert "" + "-" + "" == "-";
    ParseIntNaN("", "", "abc");
    assert "" + "" + "abc" == "abc";
  }

  /** Typing a positive number sets that group size, and a negative number
      is kept as it is. */
  lemma GroupSizeOfNumber(n: nat)
    requires n >= 1
    ensures GroupSizeFromInput(Decimal(n)) == n
    ensures GroupSizeFromInput("-" + Decimal(n)) == -(n as int)
  {
    ParseDecimal(n);
  }

  /** An empty, zero or non-numeric input gives 1. */
  lemma GroupSizeFallback()
    ensures GroupSizeFromInput("") == 1
    ensures GroupSizeFromInput("0") == 1
    ensures GroupSizeFromInput("abc") == 1
  {
    assert ParseInt("") == None;
    assert DigitsValue("0") == 0 by {
      assert "0"[..0] == [];
    }
    ParseIntShape("", "", "0", "", 0);
    assert "" + "" + "0" + "" == "0";
    ParseIntNaN("", "", "abc");
    assert "" + "" + "abc" == "abc";
  }

  // ---- The booking itself ----

  datatype Customer = Customer(name: string, email: string, phone: string)

  /** The form fields the page keeps in state. */
  datatype BookingForm = BookingForm(
    date: string,
    time: string,
    groupSize: int,
    name: string,
    email: string,
    phone: string,
    paymentMethod: string)

  datatype BookingRecord = BookingRecord(
    id: string,
    location: Location,
    date: string,
    time: string,
    groupSize: int,
    totalPrice: int,
    customer: Customer,
    paymentMethod: string,
    bookingTime: string,
    status: string)

  datatype BookingError = MissingRequiredFields

  /** The guard and the record of `handleBooking`. The random booking id
      and the current time are parameters. */
  function HandleBooking(location: Location, form: BookingForm, bookingId: string, bookingTime: string)
    : (r: Result<BookingRecord, BookingError>)
    ensures r.Failure? <==> form.date == "" || form.time == "" || form.name == "" || form.email == ""
    ensures r.Success? ==>
      && r.value.status == "confirmed"
      && r.value.location == location
      && r.value.date == form.date && r.value.time == form.time
      && r.value.groupSize == form.groupSize
      && r.value.totalPrice == TotalPrice(location.price, form.groupSize)
      && r.value.customer == Customer(form.name, form.email, form.phone)
      && r.value.paymentMethod == form.paymentMethod
      && r.value.id == bookingId && r.value.bookingTime == bookingTime
  {
    if form.date == "" || form.time == "" || form.name == "" || form.email == "" then
      Failure(MissingRequiredFields)
    else
      Success(BookingRecord(
        bookingId, location, form.date, form.time, form.groupSize,
        TotalPrice(location.price, form.groupSize),
        Customer(form.name, form.email, form.phone),
        form.paymentMethod, bookingTime, "confirmed"))
  }

  /** The booked total follows the typed group size: a typed n books n
      people at n times the price, and an emptied input books one person
      at the price of one. */
  lemma BookedTotalForTypedSize(location: Location, form: BookingForm, n: nat, bookingId: string, bookingTime: string)
    requires n >= 1
    ensures var r := HandleBooking(location, form.(groupSize := GroupSizeFromInput(Decimal(n))), bookingId, bookingTime);
      r.Success? ==> r.value.groupSize == n && r.value.totalPrice == location.price * n
    ensures var r := HandleBooking(location, form.(groupSize := GroupSizeFromInput("")), bookingId, bookingTime);
      r.Success? ==> r.value.groupSize == 1 && r.value.totalPrice == location.price
  {
    GroupSizeOfNumber(n);
    GroupSizeFallback();
  }

  /** The phone number never decides whether a booking is accepted. */
  lemma PhoneIsOptional(location: Location, form: BookingForm, phone: string, bookingId: string, bookingTime: string)
    ensures HandleBooking(location, form, bookingId, bookingTime).Success?
        == HandleBooking(location, form.(phone := phone), bookingId, bookingTime).Success?
  {
  }

  /** The lookup stops at the first venue carrying the id. */
  lemma FindsFirst(c: seq<Location>, id: string, k: nat)
    requires k < |c| && c[k].id == id
    requires forall j :: 0 <= j < k ==> c[j].id != id
    ensures FindLocation(c, Some(id)) == Some(c[k])
  {
  }

  predicate DistinctIds(c: seq<Location>) {
    forall i, j :: 0 <= i < j < |c| ==> c[i].id != c[j].id
  }

  /** In a catalog with distinct ids every venue is found by its own id. */
  lemma FindsEveryId(c: seq<Location>)
    requires DistinctIds(c)
    ensures forall k :: 0 <= k < |c| ==> FindLocation(c, Some(c[k].id)) == Some(c[k])
  {
    forall k | 0 <= k < |c|
      ensures FindLocation(c, Some(c[k].id)) == Some(c[k])
    {
      FindsFirst(c, c[k].id, k);
    }
  }

  /** Every catalog id finds its venue. */
  lemma CatalogLookup()
    ensures FindLocation(SampleLocations(), Some("1")) == Some(SampleLocations()[0])
    ensures FindLocation(SampleLocations(), Some("2")) == Some(SampleLocations()[1])
    ensures FindLocation(SampleLocations(), Some("3")) == Some(SampleLocations()[2])
  {
    var c := SampleLocations();
    assert c[0].id == "1" && c[1].id == "2" && c[2].id == "3";
    FindsEveryId(c);
  }

  /** An id outside the catalog and a missing parameter find nothing. */
  lemma UnknownLocation()
    ensures FindLocation(SampleLocations(), Some("4")) == None
    ensures FindLocation(SampleLocations(), None) == None
  {
    var c := SampleLocations();
    assert c[0].id == "1" && c[1].id == "2" && c[2].id == "3";
  }
}
