/**
 * The in-memory post store of the blog API (backend/backend_app.py): the
 * process-wide list `POSTS`, seeded with two posts, the create operation of
 * the POST branch of `manage_books`, and the list reads of `get_posts` and of
 * the GET branch.
 */
module Posts {
  import opened Validation

  /** A stored post is the very payload dict the client sent, with `id` set. */
  type Record = Payload

  const ID := "id"

  /** The error body of a rejected create (sent with status 400). */
  const INVALID_POST_DATA := "Invalid post data"

  /** What a create request answers: the stored post (status 201) or an error (status 400). */
  datatype Outcome = Created(post: Record) | Rejected(error: string)

  predicate HasId(r: Record) {
    ID in r && r[ID].Int?
  }

  function Id(r: Record): int
    requires HasId(r)
  {
    r[ID].i
  }

  predicate AllHaveIds(posts: seq<Record>) {
    forall i :: 0 <= i < |posts| ==> HasId(posts[i])
  }

  /**
   * What every stored post satisfies: a positive integer id, and the title
   * and content that passed validation when it was created.
   */
  ghost predicate WellFormed(r: Record) {
    HasId(r) && Id(r) >= 1 && Strippable(r) && ValidPostData(r)
  }

  ghost predicate DistinctIds(posts: seq<Record>)
    requires AllHaveIds(posts)
  {
    forall i, j :: 0 <= i < j < |posts| ==> Id(posts[i]) != Id(posts[j])
  }

  ghost predicate IdsIncreasing(posts: seq<Record>)
    requires AllHaveIds(posts)
  {
    forall i, j :: 0 <= i < j < |posts| ==> Id(posts[i]) < Id(posts[j])
  }

  ghost predicate AllWellFormed(posts: seq<Record>) {
    forall i :: 0 <= i < |posts| ==> WellFormed(posts[i])
  }

  /**
   * The store invariant. The list is never empty (no operation of this API
   * removes a post, and `max` over an empty list would raise), every post is
   * well formed, and ids grow strictly in list order, so they are unique.
   */
  ghost predicate StoreInvariant(posts: seq<Record>) {
    posts != [] && AllWellFormed(posts) && AllHaveIds(posts) && IdsIncreasing(posts)
  }

  /** `max(post['id'] for post in POSTS)`: the largest id in a non-empty list. */
  function MaxId(posts: seq<Record>): (m: int)
    requires posts != [] && AllHaveIds(posts)
    ensures forall i :: 0 <= i < |posts| ==> Id(posts[i]) <= m
    ensures exists i :: 0 <= i < |posts| && Id(posts[i]) == m
  {
    if |posts| == 1 then
      Id(posts[0])
    else
      var rest := MaxId(posts[1..]);
      assert forall i :: 1 <= i < |posts| ==> posts[i] == posts[1..][i - 1];
      if Id(posts[0]) >= rest then Id(posts[0]) else rest
  }

  /**
   * The id a create assigns: one more than the largest id in the store, so
   * strictly greater than every id already there.
   */
  function NextId(posts: seq<Record>): (n: int)
    requires posts != [] && AllHaveIds(posts)
    ensures forall i :: 0 <= i < |posts| ==> Id(posts[i]) < n
    ensures exists i :: 0 <= i < |posts| && Id(posts[i]) == n - 1
  {
    MaxId(posts) + 1
  }

  /**
   * `new_post['id'] = new_id`: the payload with its `id` set to the generated
   * one, whatever `id` the client sent; every other key keeps its value.
   */
  function Stamp(p: Payload, id: int): (r: Record)
    ensures HasId(r) && Id(r) == id
    ensures r.Keys == p.Keys + {ID}
    ensures forall k :: k in p && k != ID ==> r[k] == p[k]
  {
    p[ID := Int(id)]
  }

  /** The post a create appends to `posts` for a payload that passed validation. */
  function NewPost(posts: seq<Record>, p: Payload): (r: Record)
    requires posts != [] && AllHaveIds(posts)
    ensures HasId(r) && Id(r) == NextId(posts)
    ensures forall i :: 0 <= i < |posts| ==> Id(posts[i]) < Id(r)
    ensures r.Keys == p.Keys + {ID}
    ensures forall k :: k in p && k != ID ==> r[k] == p[k]
  {
    Stamp(p, NextId(posts))
  }

  /** Stamping an id does not change what validation says of a payload. */
  lemma StampKeepsValidity(p: Payload, id: int)
    requires Strippable(p)
    ensures Strippable(Stamp(p, id))
    ensures ValidPostData(Stamp(p, id)) == ValidPostData(p)
  {
    OtherFieldsIgnored(p, ID, Int(id));
  }

  /** Appending the post a create builds keeps the ids pairwise distinct. */
  lemma CreateKeepsIdsDistinct(posts: seq<Record>, p: Payload)
    requires posts != [] && AllHaveIds(posts) && DistinctIds(posts)
    ensures AllHaveIds(posts + [NewPost(posts, p)])
    ensures DistinctIds(posts + [NewPost(posts, p)])
  {
    var r := NewPost(posts, p);
    var after := posts + [r];
    forall i, j | 0 <= i < j < |after| ensures Id(after[i]) != Id(after[j]) {
      if j < |posts| {
        assert after[i] == posts[i] && after[j] == posts[j];
      } else {
        assert after[i] == posts[i] && after[j] == r;
      }
    }
  }

  /** A valid payload stamped with a positive id is a well-formed post. */
  lemma StampedIsWellFormed(p: Payload, id: int)
    requires Strippable(p) && ValidPostData(p) && id >= 1
    ensures WellFormed(Stamp(p, id))
  {
    StampKeepsValidity(p, id);
  }

  /** Appending a post whose id exceeds every id present keeps ids increasing. */
  lemma AppendKeepsIdsIncreasing(posts: seq<Record>, r: Record)
    requires AllHaveIds(posts) && IdsIncreasing(posts) && HasId(r)
    requires forall i :: 0 <= i < |posts| ==> Id(posts[i]) < Id(r)
    ensures AllHaveIds(posts + [r]) && IdsIncreasing(posts + [r])
  {
    var after := posts + [r];
    forall i, j | 0 <= i < j < |after| ensures Id(after[i]) < Id(after[j]) {
      if j < |posts| {
        assert after[i] == posts[i] && after[j] == posts[j];
      } else {
        assert after[i] == posts[i] && after[j] == r;
      }
    }
  }

  /** Appending a well-formed post keeps every post well formed. */
  lemma AppendKeepsWellFormed(posts: seq<Record>, r: Record)
    requires AllWellFormed(posts) && WellFormed(r)
    ensures AllWellFormed(posts + [r])
  {
    var after := posts + [r];
    forall i | 0 <= i < |after| ensures WellFormed(after[i]) {
      if i < |posts| {
        assert after[i] == posts[i];
      }
    }
  }

  /** A create on a valid payload preserves the store invariant. */
  lemma CreatePreservesInvariant(posts: seq<Record>, p: Payload)
    requires StoreInvariant(posts) && Strippable(p) && ValidPostData(p)
    ensures StoreInvariant(posts + [NewPost(posts, p)])
  {
    var id := NextId(posts);
    assert Id(posts[0]) >= 1 by {
      assert WellFormed(posts[0]);
    }
    StampedIsWellFormed(p, id);
    AppendKeepsWellFormed(posts, Stamp(p, id));
    AppendKeepsIdsIncreasing(posts, Stamp(p, id));
  }

  /** In a store whose ids increase, the next id follows the last post's. */
  lemma {:induction false} NextIdFollowsLast(posts: seq<Record>)
    requires posts != [] && AllHaveIds(posts) && IdsIncreasing(posts)
    ensures NextId(posts) == Id(posts[|posts| - 1]) + 1
  {
    var last := |posts| - 1;
    assert Id(posts[last]) < NextId(posts);
  }

  /** A post holding exactly an id, a title and a content, as the seeded ones do. */
  function MakePost(id: int, title: string, content: string): (r: Record)
    ensures HasId(r) && Id(r) == id
    ensures r.Keys == {ID, TITLE, CONTENT}
    ensures r[TITLE] == Str(title) && r[CONTENT] == Str(content)
  {
    map[ID := Int(id), TITLE := Str(title), CONTENT := Str(content)]
  }

  /** The posts `POSTS` holds at start-up. */
  function Seed(): (s: seq<Record>)
    ensures |s| == 2
  {
    [ MakePost(1, "First post", "This is the first post."),
      MakePost(2, "Second post", "This is the second post.") ]
  }

  /** The seeded posts carry the ids 1 and 2, in that order. */
  lemma SeedIds()
    ensures |Seed()| == 2 && AllHaveIds(Seed())
    ensures Id(Seed()[0]) == 1 && Id(Seed()[1]) == 2
  {
  }

  /** A post made from a positive id and two non-blank strings is well formed. */
  lemma MadePostWellFormed(id: int, title: string, content: string)
    requires id >= 1
    requires title != [] && !IsSpace(title[0]) && content != [] && !IsSpace(content[0])
    ensures WellFormed(MakePost(id, title, content))
  {
    var r := MakePost(id, title, content);
    assert !AllSpace(r[TITLE].s) && !AllSpace(r[CONTENT].s);
  }

  /** Two well-formed posts in increasing id order make a valid store. */
  lemma TwoPostsInvariant(a: Record, b: Record)
    requires WellFormed(a) && WellFormed(b) && Id(a) < Id(b)
    ensures StoreInvariant([a, b])
  {
    assert AllWellFormed([a]) && AllHaveIds([a]) && IdsIncreasing([a]);
    AppendKeepsWellFormed([a], b);
    AppendKeepsIdsIncreasing([a], b);
    assert [a] + [b] == [a, b];
  }

  /** The seed satisfies the store invariant. */
  lemma SeedInvariant()
    ensures StoreInvariant(Seed())
  {
    var a := MakePost(1, "First post", "This is the first post.");
    var b := MakePost(2, "Second post", "This is the second post.");
    MadePostWellFormed(1, "First post", "This is the first post.");
    MadePostWellFormed(2, "Second post", "This is the second post.");
    TwoPostsInvariant(a, b);
    assert Seed() == [a, b];
  }

  /** The global list `POSTS` and the handlers that read and extend it. */
  class PostStore {
    var posts: seq<Record>

    ghost predicate Valid()
      reads this
    {
      StoreInvariant(posts)
    }

    /** `POSTS` as the module defines it. */
    constructor ()
      ensures Valid() && posts == Seed()
    {
      posts := Seed();
      SeedInvariant();
    }

    /**
     * The POST branch of `manage_books`: validate, then assign the next id
     * and append. A rejected payload leaves the store as it was.
     */
    method Create(payload: Payload) returns (outcome: Outcome)
      requires Valid() && Strippable(payload)
      modifies this
      ensures Valid()
      ensures outcome.Rejected? <==> !ValidPostData(payload)
      ensures outcome.Rejected? ==> outcome.error == INVALID_POST_DATA && posts == old(posts)
      ensures outcome.Created? ==>
        outcome.post == NewPost(old(posts), payload) &&
        posts == old(posts) + [outcome.post] &&
        posts[|posts| - 1] == outcome.post
      ensures outcome.Created? ==>
        HasId(outcome.post) &&
        forall i :: 0 <= i < |old(posts)| ==> Id(old(posts)[i]) < Id(outcome.post)
    {
      if !ValidPostData(payload) {
        return Rejected(INVALID_POST_DATA);
      }
      var newId := MaxId(posts) + 1;
      var newPost := Stamp(payload, newId);
      CreatePreservesInvariant(posts, payload);
      posts := posts + [newPost];
      outcome := Created(newPost);
    }

    /** `get_posts` and the GET branch of `manage_books`: the posts as stored, in order. */
    method List() returns (all: seq<Record>)
      requires Valid()
      ensures all == posts
      ensures all != [] && AllHaveIds(all) && DistinctIds(all)
    {
      all := posts;
    }
  }

  /** On a fresh store, a create with a blank title is rejected and changes nothing. */
  method BlankTitleRejected() {
    var store := new PostStore();
    var blank: Payload := map[TITLE := Str("  "), CONTENT := Str("Hi")];
    assert !ValidPostData(blank) by {
      assert AllSpace(blank[TITLE].s);
    }
    var out := store.Create(blank);
    assert out == Rejected(INVALID_POST_DATA) && store.posts == Seed();
  }

  /** On a fresh store, a create that carries its own `id` gets id 3 instead. */
  method ThirdPostGetsNextId() {
    var store := new PostStore();
    var third := MakePost(99, "Third", "Hi");
    MadePostWellFormed(99, "Third", "Hi");
    SeedInvariant();
    SeedIds();
    NextIdFollowsLast(Seed());
    var out := store.Create(third);
    assert out.Created? && Id(out.post) == 3 && out.post[TITLE] == Str("Third");
    var all := store.List();
    assert |all| == 3 && all[2] == out.post;
  }
}
