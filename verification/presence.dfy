/**
 The local list of users currently attached to a board's channel, and the
 three presence events that change it: a full `sync` snapshot, an additive
 `join` and a `leave` matched by user id.
 */
module Presence {

  /** One tracked descriptor, as the session sends it with `track`. */
  datatype Presence = Presence(userId: string, email: string, onlineAt: string)

  /** Every descriptor of every presence key, counted with multiplicity. */
  ghost function Bag(state: seq<seq<Presence>>): multiset<Presence>
  {
    if |state| == 0 then multiset{} else multiset(state[0]) + Bag(state[1..])
  }

  /**
   The channel's presence state, one list of descriptors per presence key,
   flattened into one list in key order.
   */
  function Flatten(state: seq<seq<Presence>>): (r: seq<Presence>)
    ensures forall p :: p in r <==> exists k :: 0 <= k < |state| && p in state[k]
    ensures multiset(r) == Bag(state)
  {
    if |state| == 0 then []
    else state[0] + Flatten(state[1..])
  }

  /** The sync handler: the snapshot replaces the list wholesale. */
  function Sync(users: seq<Presence>, state: seq<seq<Presence>>): (r: seq<Presence>)
    ensures forall p :: p in r <==> exists k :: 0 <= k < |state| && p in state[k]
    ensures multiset(r) == Bag(state)
  {
    Flatten(state)
  }

  /** The join handler: new presences go after the existing ones, duplicates and all. */
  function Join(users: seq<Presence>, joined: seq<Presence>): (r: seq<Presence>)
    ensures |r| == |users| + |joined|
    ensures r[..|users|] == users && r[|users|..] == joined
  {
    users + joined
  }

  /** `left.find(l => l.user_id === uid)` found something. */
  predicate Matches(left: seq<Presence>, uid: string)
    ensures Matches(left, uid) <==> exists i :: 0 <= i < |left| && left[i].userId == uid
  {
    |left| > 0 && (left[0].userId == uid || Matches(left[1..], uid))
  }

  /** The leave handler: drop every user whose id matches one of the left presences. */
  function Leave(users: seq<Presence>, left: seq<Presence>): (r: seq<Presence>)
    ensures |r| <= |users|
    ensures forall i :: 0 <= i < |r| ==> !Matches(left, r[i].userId)
    ensures forall i :: 0 <= i < |users| && !Matches(left, users[i].userId) ==> users[i] in r
  {
    if |users| == 0 then []
    else if Matches(left, users[0].userId) then Leave(users[1..], left)
    else [users[0]] + Leave(users[1..], left)
  }

  /** Every non-matching user keeps its multiplicity; every matching user is gone. */
  lemma {:induction false} LeaveMultiset(users: seq<Presence>, left: seq<Presence>, u: Presence)
    ensures multiset(Leave(users, left))[u] == if Matches(left, u.userId) then 0 else multiset(users)[u]
    decreases |users|
  {
    if |users| > 0 {
      assert users == [users[0]] + users[1..];
      LeaveMultiset(users[1..], left, u);
    }
  }

  lemma {:induction false} FlattenAppend(a: seq<seq<Presence>>, b: seq<seq<Presence>>)
    ensures Flatten(a + b) == Flatten(a) + Flatten(b)
    decreases |a|
  {
    if |a| == 0 {
      assert a + b == b;
    } else {
      assert (a + b)[0] == a[0];
      assert (a + b)[1..] == a[1..] + b;
      FlattenAppend(a[1..], b);
    }
  }

  /** Leaving distributes over concatenation: survivors keep their relative order. */
  lemma {:induction false} LeaveAppend(a: seq<Presence>, b: seq<Presence>, left: seq<Presence>)
    ensures Leave(a + b, left) == Leave(a, left) + Leave(b, left)
    decreases |a|
  {
    if |a| == 0 {
      assert a + b == b;
    } else {
      assert (a + b)[0] == a[0];
      assert (a + b)[1..] == a[1..] + b;
      LeaveAppend(a[1..], b, left);
    }
  }

  /** A leave that matches nobody changes nothing. */
  lemma {:induction false} LeaveNoMatch(users: seq<Presence>, left: seq<Presence>)
    requires forall i :: 0 <= i < |users| ==> !Matches(left, users[i].userId)
    ensures Leave(users, left) == users
    decreases |users|
  {
    if |users| > 0 {
      LeaveNoMatch(users[1..], left);
      assert users == [users[0]] + users[1..];
    }
  }

  /** Applying the same leave twice is the same as applying it once. */
  lemma LeaveIdempotent(users: seq<Presence>, left: seq<Presence>)
    ensures Leave(Leave(users, left), left) == Leave(users, left)
  {
    LeaveNoMatch(Leave(users, left), left);
  }

  /** Every presence that joins and then leaves is gone again, and the earlier survivors are as before. */
  lemma JoinThenLeave(users: seq<Presence>, joined: seq<Presence>)
    ensures Leave(Join(users, joined), joined) == Leave(users, joined)
  {
    LeaveAppend(users, joined, joined);
    LeaveAllSelf(joined);
  }

  lemma {:induction false} LeaveAllSelf(left: seq<Presence>)
    ensures Leave(left, left) == []
  {
    forall i | 0 <= i < |left|
      ensures Matches(left, left[i].userId)
    {
    }
    LeaveAllMatching(left, left);
  }

  lemma {:induction false} LeaveAllMatching(users: seq<Presence>, left: seq<Presence>)
    requires forall i :: 0 <= i < |users| ==> Matches(left, users[i].userId)
    ensures Leave(users, left) == []
    decreases |users|
  {
    if |users| > 0 {
      LeaveAllMatching(users[1..], left);
    }
  }
}
