/** Group events and invitations of src/components/GroupEvents.tsx: an
    answer to an invitation rewrites the status of the entries with that
    id; the invitation card lists only the pending entries; each event
    shows how many people take part, the organiser included. */
module GroupEvents {
  import opened Seqs

  datatype Status = Pending | Accepted | Declined

  /** The two answers a user can give. */
  type Response = s: Status | s != Pending witness Accepted

  datatype Invitation = Invitation(
    id: string,
    eventId: string,
    eventTitle: string,
    organizer: string,
    date: string,
    time: string,
    status: Status)

  datatype EventType = QuestEvent | LocationEvent
  datatype EventStatus = EventPending | Confirmed | Cancelled

  datatype GroupEvent = GroupEvent(
    id: string,
    title: string,
    kind: EventType,
    date: string,
    time: string,
    organizer: string,
    participants: seq<string>,
    maxParticipants: int,
    status: EventStatus,
    description: string)

  /** Answering an invitation: every invitation carrying the answered id
      takes the new status, all others stay as they were, in place. */
  function Respond(invs: seq<Invitation>, invitationId: string, response: Response): (r: seq<Invitation>)
    ensures |r| == |invs|
    ensures forall i :: 0 <= i < |invs| ==>
      r[i] == if invs[i].id == invitationId then invs[i].(status := response) else invs[i]
  {
    if invs == [] then []
    else
      [if invs[0].id == invitationId then invs[0].(status := response) else invs[0]]
      + Respond(invs[1..], invitationId, response)
  }

  /** The invitations still waiting for an answer, in list order. */
  function PendingInvitations(invs: seq<Invitation>): seq<Invitation> {
    Filter(invs, (inv: Invitation) => inv.status == Pending)
  }

  /** The people listed on an event card: the organiser badge, then one
      badge per participant. */
  function Roster(e: GroupEvent): seq<string> {
    [e.organizer] + e.participants
  }

  /** The "participants.length + 1" shown on an event card. */
  function ParticipantCount(e: GroupEvent): (n: nat)
    ensures n == |Roster(e)|
    ensures n >= 1
  {
    |e.participants| + 1
  }

  /** An id that no invitation carries leaves the list as it was. */
  lemma RespondUnknownId(invs: seq<Invitation>, invitationId: string, response: Response)
    requires forall inv :: inv in invs ==> inv.id != invitationId
    ensures Respond(invs, invitationId, response) == invs
  {
    var r := Respond(invs, invitationId, response);
    forall i | 0 <= i < |invs| ensures r[i] == invs[i] {
      assert invs[i] in invs;
    }
  }

  /** Giving the same answer twice is the same as giving it once. */
  lemma RespondIdempotent(invs: seq<Invitation>, invitationId: string, response: Response)
    ensures Respond(Respond(invs, invitationId, response), invitationId, response)
         == Respond(invs, invitationId, response)
  {
  }

  /** After an answer, the pending view is the old pending view without
      the answered invitation: no other pending invitation disappears and
      the order is kept. */
  lemma {:induction false} RespondLeavesPending(invs: seq<Invitation>, invitationId: string, response: Response)
    ensures PendingInvitations(Respond(invs, invitationId, response))
         == Filter(PendingInvitations(invs), (inv: Invitation) => inv.id != invitationId)
  {
    if invs != [] {
      var r := Respond(invs, invitationId, response);
      assert r[1..] == Respond(invs[1..], invitationId, response);
      RespondLeavesPending(invs[1..], invitationId, response);
    }
  }

  /** After an answer, no invitation with that id is pending. */
  lemma AnsweredNotPending(invs: seq<Invitation>, invitationId: string, response: Response)
    ensures forall inv :: inv in PendingInvitations(Respond(invs, invitationId, response)) ==> inv.id != invitationId
  {
    RespondLeavesPending(invs, invitationId, response);
  }

  /** The two events the component starts with. */
  function InitialEvents(): seq<GroupEvent> {
    [ GroupEvent("1", "Escape Room Challenge", LocationEvent, "2024-06-15", "19:00", "MaxAdventurer",
                 ["QuestMaster99", "SocialButterfly"], 6, Confirmed, "Gruppen-Escape Room im Escape Universe"),
      GroupEvent("2", "Nachtfalter Quest", QuestEvent, "2024-06-12", "21:00", "Du",
                 ["MaxAdventurer"], 4, EventPending, "Gemeinsame Entdeckung des Nachtlebens") ]
  }

  /** The one invitation the component starts with, still unanswered. */
  function InitialInvitations(): seq<Invitation> {
    [Invitation("1", "3", "Biergarten Tour", "QuestMaster99", "2024-06-13", "18:00", Pending)]
  }

  /** On the initial board the invitation is pending, and answering it
      either way empties the pending list and leaves the answer on it. */
  lemma AnswerInitialInvitation(response: Response)
    ensures PendingInvitations(InitialInvitations()) == InitialInvitations()
    ensures PendingInvitations(Respond(InitialInvitations(), "1", response)) == []
    ensures Respond(InitialInvitations(), "1", response)[0].status == response
  {
    var invs := InitialInvitations();
    FilterKeepsAll(invs, (inv: Invitation) => inv.status == Pending);
    RespondLeavesPending(invs, "1", response);
    FilterNone(invs, (inv: Invitation) => inv.id != "1");
  }

  /** The component's state: the events and the invitations. */
  class GroupEventsBoard {
    var groupEvents: seq<GroupEvent>
    var invitations: seq<Invitation>

    constructor ()
      ensures groupEvents == InitialEvents()
      ensures invitations == InitialInvitations()
    {
      groupEvents := InitialEvents();
      invitations := InitialInvitations();
    }

    method HandleInvitationResponse(invitationId: string, response: Response)
      modifies this
      ensures invitations == Respond(old(invitations), invitationId, response)
      ensures groupEvents == old(groupEvents)
    {
      invitations := Respond(invitations, invitationId, response);
    }
  }
}
