/**
 * The completion ledger: the ids of the words whose quiz was answered, kept in the
 * browser's local storage under one key, and for a signed-in user also in a remote
 * per-user collection.
 *
 * A JavaScript `Set<number>` is an insertion-ordered collection without repeats; it is
 * a duplicate-free `seq<int>` here. The remote collection `users/{userId}/completedQuizzes`
 * is a map from user id to the set of word ids written for that user.
 */
module QuizStorage {
  import opened Wrappers
  import opened Collections

  /** What `localStorage.getItem("lexicon_completed_quizzes")` finds: nothing, text that is empty or does
      not parse as a JSON array, or a parsed array of ids. */
  datatype Stored = Missing | Unreadable | Ids(ids: seq<int>)

  function Elems(s: seq<int>): set<int> {
    set x | x in s
  }

  /** `set.add(x)`: a new id goes at the end, a present one changes nothing. */
  function Add(s: seq<int>, x: int): (r: seq<int>)
    ensures Elems(r) == Elems(s) + {x}
    ensures NoDuplicates(s) ==> NoDuplicates(r)
    ensures |s| <= |r| <= |s| + 1 && r[..|s|] == s
  {
    if x in s then s else s + [x]
  }

  /** Adding an id twice is adding it once. */
  lemma AddIdempotent(s: seq<int>, x: int)
    ensures Add(Add(s, x), x) == Add(s, x)
  {
  }

  /** `new Set(ids)`: the distinct ids, in the order they first appear. */
  function FromList(ids: seq<int>): (r: seq<int>)
    ensures NoDuplicates(r) && Elems(r) == Elems(ids)
    ensures NoDuplicates(ids) ==> r == ids
  {
    if ids == [] then []
    else
      var init := ids[..|ids| - 1];
      assert Elems(ids) == Elems(init) + {ids[|ids| - 1]} by {
        assert ids == init + [ids[|ids| - 1]];
      }
      Add(FromList(init), ids[|ids| - 1])
  }

  /** `getLocalCompletedQuizzes`: the stored ids, or the empty set when nothing readable is stored. */
  function Load(v: Stored): (r: seq<int>)
    ensures NoDuplicates(r)
    ensures v.Ids? ==> Elems(r) == Elems(v.ids)
    ensures !v.Ids? ==> r == []
  {
    if v.Ids? then FromList(v.ids) else []
  }

  /** `saveToLocalStorage`: a successful write stores the ids; a failed one leaves the old value. */
  function Save(v: Stored, writable: bool, completed: seq<int>): (r: Stored)
    ensures writable ==> Elems(Load(r)) == Elems(completed)
    ensures !writable ==> r == v
  {
    if writable then Ids(completed) else v
  }

  /** Loading what was just saved gives back the same ledger. */
  lemma LoadAfterSave(v: Stored, completed: seq<int>)
    requires NoDuplicates(completed)
    ensures Load(Save(v, true, completed)) == completed
  {
  }

  /** The local half of `markQuizCompleted`: read, add, write back. */
  function MarkLocal(v: Stored, writable: bool, id: int): (r: Stored)
    ensures writable ==> Elems(Load(r)) == Elems(Load(v)) + {id}
    ensures !writable ==> r == v
  {
    Save(v, writable, Add(Load(v), id))
  }

  /** Marking adds exactly the id to the local ledger when the write succeeds, and
      leaves the stored value untouched when it fails. */
  lemma MarkLocalEffect(v: Stored, writable: bool, id: int)
    ensures writable ==> Elems(Load(MarkLocal(v, writable, id))) == Elems(Load(v)) + {id}
    ensures writable ==> Load(MarkLocal(v, writable, id)) == Add(Load(v), id)
    ensures !writable ==> MarkLocal(v, writable, id) == v
  {
  }

  /** Marking the same id twice is marking it once. */
  lemma MarkTwice(v: Stored, writable: bool, id: int)
    ensures MarkLocal(MarkLocal(v, writable, id), writable, id) == MarkLocal(v, writable, id)
  {
    if writable {
      var once := Add(Load(v), id);
      LoadAfterSave(v, once);
      AddIdempotent(Load(v), id);
    }
  }

  /** `if (userId)`: the falsy user ids (`null`, `undefined`, the empty string) count as signed out. */
  function SignedIn(userId: Option<string>): (b: bool)
    ensures b <==> userId != None && userId != Some("")
  {
    userId.Some? && userId.value != ""
  }

  /** The ids written remotely for `user`. */
  function Partition(remote: map<string, set<int>>, user: string): set<int> {
    if user in remote then remote[user] else {}
  }

  /** The remote collection after writing `ids` for `user`. */
  function RemoteAdd(remote: map<string, set<int>>, user: string, ids: set<int>): (r: map<string, set<int>>)
    ensures Partition(r, user) == Partition(remote, user) + ids
    ensures forall u :: u != user ==> Partition(r, u) == Partition(remote, u)
  {
    remote[user := Partition(remote, user) + ids]
  }

  /** What a remote read returns for `user`: every written id except 0, which the read
      drops because it is falsy. */
  function CloudRead(remote: map<string, set<int>>, user: string): (r: set<int>)
    ensures r <= Partition(remote, user) && 0 !in r
    ensures forall id :: id in Partition(remote, user) && id != 0 ==> id in r
  {
    Partition(remote, user) - {0}
  }

  /** Two writes for the same user are one write of both batches. */
  lemma RemoteAddUnion(remote: map<string, set<int>>, user: string, a: set<int>, b: set<int>)
    ensures RemoteAdd(RemoteAdd(remote, user, a), user, b) == RemoteAdd(remote, user, a + b)
  {
    assert Partition(RemoteAdd(remote, user, a), user) + b == Partition(remote, user) + (a + b);
  }

  /** Writing the same ids twice gives the same remote collection as writing them once. */
  lemma RemoteAddIdempotent(remote: map<string, set<int>>, user: string, ids: set<int>)
    ensures RemoteAdd(RemoteAdd(remote, user, ids), user, ids) == RemoteAdd(remote, user, ids)
  {
    RemoteAddUnion(remote, user, ids, ids);
    assert ids + ids == ids;
  }

  /** The browser's local storage and the remote collection, with whether each accepts
      operations at the moment. */
  class Ledger {
    var stored: Stored
    var localWritable: bool
    var remote: map<string, set<int>>
    var remoteReachable: bool

    constructor (stored: Stored, localWritable: bool, remote: map<string, set<int>>, remoteReachable: bool)
      ensures this.stored == stored && this.localWritable == localWritable
      ensures this.remote == remote && this.remoteReachable == remoteReachable
    {
      this.stored := stored;
      this.localWritable := localWritable;
      this.remote := remote;
      this.remoteReachable := remoteReachable;
    }

    /** `getLocalCompletedQuizzes`. */
    function LocalCompleted(): (r: seq<int>)
      reads this`stored
      ensures NoDuplicates(r)
      ensures stored.Ids? ==> Elems(r) == Elems(stored.ids)
      ensures !stored.Ids? ==> r == []
    {
      Load(stored)
    }

    /** `isQuizCompleted`: membership in the local ledger; the remote collection is not read. */
    function IsQuizCompleted(wordId: int): (b: bool)
      reads this`stored
      ensures b <==> stored.Ids? && wordId in stored.ids
    {
      assert wordId in LocalCompleted() <==> wordId in Elems(LocalCompleted());
      wordId in LocalCompleted()
    }

    /** `saveToLocalStorage`: a failed write is swallowed. */
    method SaveToLocalStorage(completed: seq<int>)
      modifies this`stored
      ensures stored == Save(old(stored), localWritable, completed)
      ensures localWritable ==> LocalCompleted() == FromList(completed)
      ensures !localWritable ==> stored == old(stored)
    {
      if localWritable {
        stored := Ids(completed);
      }
    }

    /** `saveQuizCompletion`: upserts one id for `user`; fails when the remote is unreachable. */
    method SaveQuizCompletion(user: string, wordId: int) returns (ok: bool)
      modifies this`remote
      ensures ok == remoteReachable
      ensures remote == if ok then RemoteAdd(old(remote), user, {wordId}) else old(remote)
    {
      ok := remoteReachable;
      if ok {
        remote := RemoteAdd(remote, user, {wordId});
      }
    }

    /** `getCompletedQuizzes` of the remote service: `None` stands for a failed read. */
    method GetCompletedQuizzes(user: string) returns (r: Option<set<int>>)
      ensures r.Some? <==> remoteReachable
      ensures r.Some? ==> r.value == CloudRead(remote, user)
    {
      if remoteReachable {
        r := Some(CloudRead(remote, user));
      } else {
        r := None;
      }
    }

    /** `markQuizCompleted`: the local read-modify-write always happens first; then, for a
        signed-in user, one remote write whose failure is swallowed. */
    method MarkQuizCompleted(wordId: int, userId: Option<string>)
      modifies this`stored, this`remote
      ensures stored == MarkLocal(old(stored), localWritable, wordId)
      ensures localWritable ==> IsQuizCompleted(wordId)
      ensures remote == if SignedIn(userId) && remoteReachable
        then RemoteAdd(old(remote), userId.value, {wordId}) else old(remote)
    {
      var completed := LocalCompleted();
      completed := Add(completed, wordId);
      SaveToLocalStorage(completed);
      if SignedIn(userId) {
        var _ := SaveQuizCompletion(userId.value, wordId);
      }
    }

    /** `getAllCompletedQuizzes`: the local ledger, merged with the remote one for a
        signed-in user whose remote read succeeds. */
    method GetAllCompletedQuizzes(userId: Option<string>) returns (r: set<int>)
      ensures Elems(LocalCompleted()) <= r
      ensures !SignedIn(userId) ==> r == Elems(LocalCompleted())
      ensures SignedIn(userId) && !remoteReachable ==> r == Elems(LocalCompleted())
      ensures SignedIn(userId) && remoteReachable ==>
        r == Elems(LocalCompleted()) + CloudRead(remote, userId.value)
    {
      var local := LocalCompleted();
      if !SignedIn(userId) {
        return Elems(local);
      }
      var cloud := GetCompletedQuizzes(userId.value);
      match cloud {
        case None => r := Elems(local);
        case Some(c) => r := Elems(local) + c;
      }
    }

    /** `syncLocalToFirestore`: one write per id, in order. The batch fails when any write
        fails; an empty batch succeeds without touching the remote. */
    method SyncLocalToFirestore(user: string, ids: seq<int>) returns (ok: bool)
      modifies this`remote
      ensures ok <==> remoteReachable || ids == []
      ensures remote == if remoteReachable && ids != []
        then RemoteAdd(old(remote), user, Elems(ids)) else old(remote)
    {
      ok := true;
      var i := 0;
      while i < |ids|
        invariant 0 <= i <= |ids|
        invariant ok <==> remoteReachable || i == 0
        invariant remote == if remoteReachable && i > 0
          then RemoteAdd(old(remote), user, Elems(ids[..i])) else old(remote)
      {
        var written := SaveQuizCompletion(user, ids[i]);
        assert Elems(ids[..i + 1]) == Elems(ids[..i]) + {ids[i]} by {
          assert ids[..i + 1] == ids[..i] + [ids[i]];
        }
        if remoteReachable && i > 0 {
          RemoteAddUnion(old(remote), user, Elems(ids[..i]), {ids[i]});
        } else if remoteReachable {
          assert Elems(ids[..i]) == {};
          assert Elems(ids[..i + 1]) == {ids[i]};
        }
        if !written {
          ok := false;
        }
        i := i + 1;
      }
      assert ids[..i] == ids;
    }

    /** `syncCompletionsToCloud`: pushes the local ledger for `user` unless it is empty;
        a failure is swallowed and the local ledger is never changed. */
    method SyncCompletionsToCloud(user: string)
      modifies this`remote
      ensures LocalCompleted() == [] ==> remote == old(remote)
      ensures remote == if remoteReachable && LocalCompleted() != []
        then RemoteAdd(old(remote), user, Elems(LocalCompleted())) else old(remote)
      ensures remoteReachable ==> Elems(LocalCompleted()) <= Partition(remote, user)
    {
      var localCompleted := LocalCompleted();
      if |localCompleted| > 0 {
        var _ := SyncLocalToFirestore(user, localCompleted);
      }
    }

    /** `clearLocalCompletedQuizzes`: removes the key, so the ledger loads as empty. */
    method ClearLocalCompletedQuizzes()
      modifies this`stored
      ensures stored == Missing && LocalCompleted() == []
    {
      stored := Missing;
    }
  }
}
