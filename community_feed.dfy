/** The like button of src/components/CommunityFeed.tsx: the ids of the
    posts the user liked form a list that a tap toggles, and each post
    shows its like count plus one when liked. Also the difficulty-to-colour
    table of the top-quests tab. */
module CommunityFeed {
  import opened Seqs

  datatype FeedPost = FeedPost(
    id: string,
    user: string,
    questName: string,
    description: string,
    likes: int,
    comments: int,
    timeAgo: string,
    location: string)

  /** A tap on the heart: when the post is liked, every occurrence of its id
      is dropped from the list; otherwise its id is appended at the end. */
  function ToggleLike(liked: seq<string>, postId: string): (r: seq<string>)
    ensures postId in r <==> postId !in liked
    ensures forall other :: other != postId ==> (other in r <==> other in liked)
  {
    if postId in liked then Filter(liked, (id: string) => id != postId) else liked + [postId]
  }

  /** The like count rendered under a post. */
  function DisplayedLikes(post: FeedPost, liked: seq<string>): int {
    post.likes + (if post.id in liked then 1 else 0)
  }

  /** A toggle keeps the liked list free of duplicates. */
  lemma ToggleKeepsNoDuplicates(liked: seq<string>, postId: string)
    requires NoDuplicates(liked)
    ensures NoDuplicates(ToggleLike(liked, postId))
  {
    if postId in liked {
      FilterNoDuplicates(liked, (id: string) => id != postId);
    }
  }

  /** Two toggles restore every id's membership; when the id was not liked
      before, they restore the very same list. */
  lemma ToggleTwice(liked: seq<string>, postId: string)
    ensures forall x :: x in ToggleLike(ToggleLike(liked, postId), postId) <==> x in liked
    ensures postId !in liked ==> ToggleLike(ToggleLike(liked, postId), postId) == liked
  {
    if postId !in liked {
      var p := (id: string) => id != postId;
      FilterAppend(liked, [postId], p);
      FilterKeepsAll(liked, p);
      assert Filter([postId], p) == [];
    }
  }

  /** A tap on a post changes its displayed count by exactly one, up when it
      becomes liked and down when it is unliked, and leaves every other
      post's count alone. */
  lemma ToggleMovesCountByOne(post: FeedPost, other: FeedPost, liked: seq<string>)
    requires other.id != post.id
    ensures DisplayedLikes(post, ToggleLike(liked, post.id))
         == DisplayedLikes(post, liked) + (if post.id in liked then -1 else 1)
    ensures DisplayedLikes(other, ToggleLike(liked, post.id)) == DisplayedLikes(other, liked)
  {
  }

  /** `getDifficultyColor`: the three difficulty levels get their own
      colour, every other string falls back to gray. */
  function GetDifficultyColor(difficulty: string): (color: string)
    ensures color == "bg-gray-500" <==> difficulty !in {"Einfach", "Mittel", "Schwer"}
  {
    match difficulty
    case "Einfach" => "bg-questGreen-500"
    case "Mittel" => "bg-yellow-500"
    case "Schwer" => "bg-red-500"
    case _ => "bg-gray-500"
  }

  /** The three difficulty levels are told apart by colour. */
  lemma DifficultyColorsDistinct()
    ensures GetDifficultyColor("Einfach") != GetDifficultyColor("Mittel")
    ensures GetDifficultyColor("Mittel") != GetDifficultyColor("Schwer")
    ensures GetDifficultyColor("Einfach") != GetDifficultyColor("Schwer")
  {
  }

  /** The component's `likedPosts` state and its `handleLike` updater. */
  class Feed {
    var likedPosts: seq<string>

    constructor ()
      ensures likedPosts == []
    {
      likedPosts := [];
    }

    method HandleLike(postId: string)
      modifies this
      ensures likedPosts == ToggleLike(old(likedPosts), postId)
    {
      if postId in likedPosts {
        likedPosts := Filter(likedPosts, (id: string) => id != postId);
      } else {
        likedPosts := likedPosts + [postId];
      }
    }
  }
}
