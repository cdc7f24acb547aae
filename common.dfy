/** Shared vocabulary of the services: the typed exceptions they throw, the
    result of a call, the outcome of one store call, and the list operations
    behind MongoDB's `$push` and `$pull` and Mongoose's `populate`. */
module Common {

  datatype Option<T> = None | Some(value: T)

  /** The exception classes of the services. `Uncaught` stands for a raw error
      that a service lets through without classifying it (a store call made
      without `await-to-js`, a failing third-party call). */
  datatype Error = NotFound | Conflict | BadRequest | Unauthorized | InternalError | Uncaught

  datatype Result<T> = Success(value: T) | Failure(error: Error)

  /** Outcome of a middleware or of a service that returns nothing. */
  datatype Outcome = Pass | Fail(error: Error)

  /** Why a store call failed: MongoDB's duplicate-key error (code 11000) or
      anything else. */
  datatype DbFault = DuplicateKey | OtherFault

  /** Whether one store call succeeds; the model receives this as a parameter
      in place of the database's own behaviour. */
  datatype Call = Succeeds | Fails(fault: DbFault)

  /** A JavaScript value is truthy when it is present; an empty string is
      falsy, so an environment variable set to "" counts as missing. */
  predicate Defined(v: Option<string>) {
    v.Some? && v.value != ""
  }

  /** A lookup through `await-to-js` yields a document only when the call
      succeeds and the key exists; on an error the document is `undefined`. */
  predicate Resolves<V>(call: Call, key: string, table: map<string, V>) {
    call.Succeeds? && key in table
  }

  /** How every `save()` of the services classifies its error: a duplicate key
      (the new `_id` or a unique field already taken, or code 11000) is a
      Conflict, any other error an InternalError, no error no exception. */
  function SaveError(keyTaken: bool, call: Call): (r: Option<Error>)
    ensures r.None? <==> !keyTaken && call.Succeeds?
    ensures r == Some(Conflict) <==> keyTaken || call == Fails(DuplicateKey)
    ensures r.Some? && r != Some(Conflict) ==> r == Some(InternalError)
  {
    if keyTaken || call == Fails(DuplicateKey) then Some(Conflict)
    else if call.Fails? then Some(InternalError)
    else None
  }

  /** No element occurs twice. */
  predicate Distinct<T(==)>(s: seq<T>) {
    forall i, j :: 0 <= i < j < |s| ==> s[i] != s[j]
  }

  /** MongoDB `$pull`: removes every occurrence of `x`, keeping the order of
      the other elements. */
  function Pull<T(==)>(s: seq<T>, x: T): (r: seq<T>)
    ensures x !in r && |r| <= |s|
    ensures x !in s ==> r == s
  {
    if s == [] then []
    else (if s[0] == x then [] else [s[0]]) + Pull(s[1..], x)
  }

  /** Exactly the elements other than `x` survive a `$pull`. */
  lemma {:induction false} PullMembers<T>(s: seq<T>, x: T)
    ensures forall y :: y in Pull(s, x) <==> y in s && y != x
  {
    if s != [] {
      PullMembers(s[1..], x);
      assert s == [s[0]] + s[1..];
    }
  }

  /** `$push` of an absent element followed by `$pull` of it gives back the
      original list. */
  lemma {:induction false} PullUndoesPush<T>(s: seq<T>, x: T)
    requires x !in s
    ensures Pull(s + [x], x) == s
  {
    if s == [] {
      assert s + [x] == [x];
    } else {
      assert (s + [x])[0] == s[0];
      assert (s + [x])[1..] == s[1..] + [x];
      PullUndoesPush(s[1..], x);
      assert [s[0]] + s[1..] == s;
    }
  }

  lemma DistinctCons<T>(x: T, s: seq<T>)
    ensures Distinct([x] + s) <==> x !in s && Distinct(s)
  {
    var t := [x] + s;
    if x !in s && Distinct(s) {
      forall i, j | 0 <= i < j < |t| ensures t[i] != t[j] {
        if i == 0 { assert t[j] == s[j - 1]; }
        else { assert t[i] == s[i - 1] && t[j] == s[j - 1]; }
      }
    }
    if Distinct(t) {
      forall k | 0 <= k < |s| ensures s[k] != x { assert t[0] != t[k + 1]; }
      forall i, j | 0 <= i < j < |s| ensures s[i] != s[j] { assert t[i + 1] != t[j + 1]; }
    }
  }

  /** `$pull` keeps a duplicate-free list duplicate-free. */
  lemma {:induction false} PullKeepsDistinct<T>(s: seq<T>, x: T)
    requires Distinct(s)
    ensures Distinct(Pull(s, x))
  {
    if s != [] {
      assert s == [s[0]] + s[1..];
      DistinctCons(s[0], s[1..]);
      PullKeepsDistinct(s[1..], x);
      PullMembers(s[1..], x);
      if s[0] != x {
        DistinctCons(s[0], Pull(s[1..], x));
      }
    }
  }

  /** A `$push` guarded by a membership check keeps a list duplicate-free. */
  lemma PushKeepsDistinct<T>(s: seq<T>, x: T)
    requires Distinct(s) && x !in s
    ensures Distinct(s + [x])
  {
    var t := s + [x];
    forall i, j | 0 <= i < j < |t| ensures t[i] != t[j] {
      if j == |s| { assert t[i] == s[i]; }
      else { assert t[i] == s[i] && t[j] == s[j]; }
    }
  }

  /** Mongoose `populate` on an array of references: each id is replaced by
      its document, and ids whose document no longer exists are dropped. */
  function Populate<V>(ids: seq<string>, table: map<string, V>): (r: seq<V>)
    ensures |r| <= |ids|
    ensures (forall id :: id in ids ==> id in table) ==>
      |r| == |ids| && forall k :: 0 <= k < |ids| ==> r[k] == table[ids[k]]
  {
    if ids == [] then []
    else (if ids[0] in table then [table[ids[0]]] else []) + Populate(ids[1..], table)
  }
}
