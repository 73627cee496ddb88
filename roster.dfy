/** The two local reconciliations the dashboard applies to its cached roster after a
    server call succeeds: dropping the deleted user (`users.filter(...)`) and patching
    the updated user in place (`prevUsers.map(...)` with an object spread). Both
    compare ids with strict equality. */
module Roster {
  import opened JsValues

  /** `user.user_id === id`. */
  predicate HasId(user: Record, id: Value)
    ensures id.NaN? ==> !HasId(user, id)
    ensures HasId(user, id) ==> Get(user, "user_id") == id
  {
    StrictEquals(Get(user, "user_id"), id)
  }

  /** `users.filter(user => user.user_id !== id)`. */
  function RemoveById(users: seq<Record>, id: Value): (kept: seq<Record>)
    ensures |kept| <= |users|
    ensures forall k :: 0 <= k < |kept| ==> !HasId(kept[k], id)
  {
    if users == [] then []
    else if HasId(users[0], id) then RemoveById(users[1..], id)
    else [users[0]] + RemoveById(users[1..], id)
  }

  /** `prevUsers.map(user => user.user_id === id ? { ...user, ...payload } : user)`. */
  function MergeById(users: seq<Record>, id: Value, payload: Record): (merged: seq<Record>)
    ensures |merged| == |users|
  {
    if users == [] then []
    else [if HasId(users[0], id) then users[0] + payload else users[0]] + MergeById(users[1..], id, payload)
  }

  /** `a` is `b` with some elements left out, the rest in their original order. */
  predicate IsSubsequence<T(==)>(a: seq<T>, b: seq<T>)
    decreases |b|
  {
    if a == [] then true
    else if b == [] then false
    else if a[0] == b[0] then IsSubsequence(a[1..], b[1..])
    else IsSubsequence(a, b[1..])
  }

  // ---------------------------------------------------------------------------
  // Delete: exactly the records carrying the id go, the others stay in order

  /** Each record occurs in the filtered roster as often as in the original roster,
      unless it carries the id, in which case it does not occur at all. */
  lemma {:induction false} RemoveByIdCount(users: seq<Record>, id: Value, user: Record)
    ensures multiset(RemoveById(users, id))[user] ==
            if HasId(user, id) then 0 else multiset(users)[user]
  {
    if users != [] {
      RemoveByIdCount(users[1..], id, user);
      assert users == [users[0]] + users[1..];
    }
  }

  /** The records that remain keep their relative order. */
  lemma {:induction false} RemoveByIdKeepsOrder(users: seq<Record>, id: Value)
    ensures IsSubsequence(RemoveById(users, id), users)
  {
    if users != [] {
      var rest := RemoveById(users[1..], id);
      RemoveByIdKeepsOrder(users[1..], id);
      if HasId(users[0], id) {
        SubsequenceSkipsHead(rest, users);
      }
    }
  }

  lemma SubsequenceSkipsHead<T>(a: seq<T>, b: seq<T>)
    requires b != [] && IsSubsequence(a, b[1..]) && (a != [] ==> a[0] != b[0])
    ensures IsSubsequence(a, b)
  {
  }

  /** When no record carries the id, deleting it changes nothing. */
  lemma {:induction false} RemoveByIdWithoutMatch(users: seq<Record>, id: Value)
    requires forall k :: 0 <= k < |users| ==> !HasId(users[k], id)
    ensures RemoveById(users, id) == users
  {
    if users != [] {
      RemoveByIdWithoutMatch(users[1..], id);
      assert users == [users[0]] + users[1..];
    }
  }

  /** Removing the same id twice is removing it once. */
  lemma RemoveByIdIdempotent(users: seq<Record>, id: Value)
    ensures RemoveById(RemoveById(users, id), id) == RemoveById(users, id)
  {
    RemoveByIdWithoutMatch(RemoveById(users, id), id);
  }

  // ---------------------------------------------------------------------------
  // Update: same length and order, matching records overridden by the payload

  /** Position by position, a record carrying the id becomes the record overridden by
      the payload, and every other record is left as it was. */
  lemma {:induction false} MergeByIdAt(users: seq<Record>, id: Value, payload: Record, k: nat)
    requires k < |users|
    ensures MergeById(users, id, payload)[k] ==
            if HasId(users[k], id) then users[k] + payload else users[k]
  {
    if k > 0 {
      MergeByIdAt(users[1..], id, payload, k - 1);
    }
  }

  /** A payload without a `user_id` leaves every record's id as it was. */
  lemma MergeByIdKeepsIds(users: seq<Record>, id: Value, payload: Record)
    requires "user_id" !in payload
    ensures forall k :: 0 <= k < |users| ==>
              Get(MergeById(users, id, payload)[k], "user_id") == Get(users[k], "user_id")
  {
    forall k | 0 <= k < |users|
      ensures Get(MergeById(users, id, payload)[k], "user_id") == Get(users[k], "user_id")
    {
      MergeByIdAt(users, id, payload, k);
    }
  }

  /** When no record carries the id, the update changes nothing. */
  lemma MergeByIdWithoutMatch(users: seq<Record>, id: Value, payload: Record)
    requires forall k :: 0 <= k < |users| ==> !HasId(users[k], id)
    ensures MergeById(users, id, payload) == users
  {
    forall k | 0 <= k < |users|
      ensures MergeById(users, id, payload)[k] == users[k]
    {
      MergeByIdAt(users, id, payload, k);
    }
  }

  /** Applying the same payload a second time changes nothing more. */
  lemma MergeByIdIdempotent(users: seq<Record>, id: Value, payload: Record)
    requires "user_id" !in payload
    ensures MergeById(MergeById(users, id, payload), id, payload) == MergeById(users, id, payload)
  {
    var once := MergeById(users, id, payload);
    MergeByIdKeepsIds(users, id, payload);
    forall k | 0 <= k < |users|
      ensures MergeById(once, id, payload)[k] == once[k]
    {
      MergeByIdAt(users, id, payload, k);
      MergeByIdAt(once, id, payload, k);
      assert HasId(once[k], id) == HasId(users[k], id);
    }
  }
}
