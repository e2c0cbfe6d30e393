/** The service that permanently deletes soft-deleted users, with an audit row for each. Every DELETE
    and every audit INSERT may fail, as arbitrary oracles over the users say; each user is attempted
    once, so an oracle per user is one per call. */
module Cleanup {
  import opened Text

  datatype User = User(id: string, deletedAt: Option<int>)

  const BATCH_SIZE := 100

  // ---------- fetching ----------

  predicate Eligible(u: User, cutoff: int)
  {
    u.deletedAt.Some? && u.deletedAt.value <= cutoff
  }

  function EligibleUsers(users: seq<User>, cutoff: int): seq<User>
  {
    if users == [] then []
    else (if Eligible(users[0], cutoff) then [users[0]] else []) + EligibleUsers(users[1..], cutoff)
  }

  /** `findMany` with `take` and `skip`, in the table's order. */
  function Page(found: seq<User>, take: nat, skip: nat): seq<User>
  {
    if skip >= |found| then [] else if skip + take <= |found| then found[skip..skip + take] else found[skip..]
  }

  /** Distinct ids, as the table's primary key says. */
  ghost predicate Keyed(users: seq<User>)
  {
    forall i, j :: 0 <= i < j < |users| ==> users[i].id != users[j].id
  }

  lemma {:induction false} EligibleOnly(users: seq<User>, cutoff: int)
    requires Keyed(users)
    ensures Keyed(EligibleUsers(users, cutoff))
    ensures forall u :: u in EligibleUsers(users, cutoff) <==> u in users && Eligible(u, cutoff)
  {
    if users != [] {
      EligibleOnly(users[1..], cutoff);
      assert users == [users[0]] + users[1..];
      assert forall u :: u in users[1..] ==> u.id != users[0].id;
    }
  }

  // ---------- deleting ----------

  /** The user table, the ids in the audit log, and the counts so far. */
  datatype Outcome = Outcome(users: seq<User>, audit: seq<string>, successCount: nat, failedIds: seq<string>)

  function WithoutId(users: seq<User>, id: string): seq<User>
  {
    if users == [] then []
    else (if users[0].id == id then [] else [users[0]]) + WithoutId(users[1..], id)
  }

  /** Which statements raise: the DELETE of a user, and its audit INSERT. */
  datatype Faults = Faults(delete: string -> bool, audit: string -> bool)

  function DeleteUser(o: Outcome, u: User, faults: Faults): Outcome
  {
    if faults.delete(u.id) then o.(failedIds := o.failedIds + [u.id])
    else if faults.audit(u.id) then o.(users := WithoutId(o.users, u.id), failedIds := o.failedIds + [u.id])
    else Outcome(WithoutId(o.users, u.id), o.audit + [u.id], o.successCount + 1, o.failedIds)
  }

  function DeleteUsers(o: Outcome, todo: seq<User>, faults: Faults): Outcome
    decreases todo
  {
    if todo == [] then o else DeleteUsers(DeleteUser(o, todo[0], faults), todo[1..], faults)
  }

  lemma {:induction false} DeleteUsersConcat(o: Outcome, a: seq<User>, b: seq<User>, faults: Faults)
    ensures DeleteUsers(o, a + b, faults) == DeleteUsers(DeleteUsers(o, a, faults), b, faults)
    decreases a
  {
    if a == [] {
      assert a + b == b;
    } else {
      assert (a + b)[1..] == a[1..] + b;
      DeleteUsersConcat(DeleteUser(o, a[0], faults), a[1..], b, faults);
    }
  }

  lemma {:induction false} WithoutIdKeeps(users: seq<User>, id: string)
    ensures forall u :: u in WithoutId(users, id) <==> u in users && u.id != id
  {
    if users != [] {
      WithoutIdKeeps(users[1..], id);
      assert users == [users[0]] + users[1..];
    }
  }

  // ---------- the service ----------

  datatype CleanupResult = CleanupResult(totalFound: nat, successCount: nat, failedCount: nat,
                                         wasDryRun: bool, failedUserIds: seq<string>, users: seq<User>)

  class CleanupService {
    const faults: Faults
    var users: seq<User>
    var audit: seq<string>

    constructor (users: seq<User>, audit: seq<string>, faults: Faults)
      ensures this.users == users && this.audit == audit && this.faults == faults
    {
      this.users, this.audit, this.faults := users, audit, faults;
    }

    /** Paging collects each eligible user once, in order. */
    method FetchUsersToDelete(cutoff: int) returns (found: seq<User>)
      ensures found == EligibleUsers(users, cutoff)
    {
      var table := EligibleUsers(users, cutoff);
      found := [];
      var skip := 0;
      while true
        invariant skip <= |table| && found == table[..skip]
        decreases |table| - skip
      {
        var batch := Page(table, BATCH_SIZE, skip);
        if batch == [] { break; }
        found := found + batch;
        skip := skip + |batch|;
      }
      assert table[..|table|] == table;
    }

    method ExecuteUserDeletions(todo: seq<User>)
        returns (successCount: nat, failedCount: nat, failedUserIds: seq<string>)
      modifies this
      ensures Outcome(users, audit, successCount, failedUserIds) ==
                DeleteUsers(Outcome(old(users), old(audit), 0, []), todo, faults)
      ensures failedCount == |failedUserIds|
    {
      successCount, failedCount, failedUserIds := 0, 0, [];
      ghost var start := Outcome(users, audit, 0, []);
      var i := 0;
      assert todo[..0] == [];
      while i < |todo|
        invariant i <= |todo| && failedCount == |failedUserIds|
        invariant Outcome(users, audit, successCount, failedUserIds) == DeleteUsers(start, todo[..i], faults)
      {
        var batch := Page(todo, BATCH_SIZE, i);
        assert batch[..0] == [];
        for k := 0 to |batch|
          invariant failedCount == |failedUserIds|
          invariant Outcome(users, audit, successCount, failedUserIds) ==
                      DeleteUsers(DeleteUsers(start, todo[..i], faults), batch[..k], faults)
        {
          var id := batch[k].id;
          OneMoreUser(DeleteUsers(start, todo[..i], faults), batch, k, faults);
          if faults.delete(id) {
            failedCount, failedUserIds := failedCount + 1, failedUserIds + [id];
            continue;
          }
          users := WithoutId(users, id);
          if faults.audit(id) {
            failedCount, failedUserIds := failedCount + 1, failedUserIds + [id];
            continue;
          }
          audit := audit + [id];
          successCount := successCount + 1;
        }
        assert batch[..|batch|] == batch && todo[..i] + batch == todo[..i + |batch|];
        DeleteUsersConcat(start, todo[..i], batch, faults);
        i := i + |batch|;
      }
      assert todo[..|todo|] == todo;
    }

    method CleanupDeletedUsers(cutoff: int, dryRun: bool) returns (r: CleanupResult)
      modifies this
      ensures var todo := EligibleUsers(old(users), cutoff);
              var o := DeleteUsers(Outcome(old(users), old(audit), 0, []), todo, faults);
              if dryRun || todo == [] then
                r == CleanupResult(|todo|, 0, 0, dryRun, [], todo) && users == old(users) && audit == old(audit)
              else
                r == CleanupResult(|todo|, o.successCount, |o.failedIds|, false, o.failedIds, todo)
                && users == o.users && audit == o.audit
    {
      var totalCount := |EligibleUsers(users, cutoff)|;
      if totalCount == 0 {
        return CleanupResult(0, 0, 0, dryRun, [], []);
      }
      var found := FetchUsersToDelete(cutoff);
      if dryRun {
        return CleanupResult(totalCount, 0, 0, true, [], found);
      }
      var successCount, failedCount, failedUserIds := ExecuteUserDeletions(found);
      r := CleanupResult(totalCount, successCount, failedCount, false, failedUserIds, found);
    }
  }

  lemma OneMoreUser(o: Outcome, todo: seq<User>, k: nat, faults: Faults)
    requires k < |todo|
    ensures DeleteUsers(o, todo[..k + 1], faults) == DeleteUser(DeleteUsers(o, todo[..k], faults), todo[k], faults)
  {
    assert todo[..k + 1] == todo[..k] + [todo[k]];
    DeleteUsersConcat(o, todo[..k], [todo[k]], faults);
  }

  // ---------- accounting ----------

  ghost predicate HasId(users: seq<User>, id: string)
  {
    exists i :: 0 <= i < |users| && users[i].id == id
  }

  /** What a run adds to the audit log. */
  function Added(o: Outcome, end: Outcome): seq<string>
  {
    if |o.audit| <= |end.audit| then end.audit[|o.audit|..] else []
  }

  /** The failures a run adds. */
  function NewFailures(o: Outcome, end: Outcome): seq<string>
  {
    if |o.failedIds| <= |end.failedIds| then end.failedIds[|o.failedIds|..] else []
  }

  /** For every pattern of failures: everyone fetched is counted once, successes are the audit rows added. */
  lemma {:induction false} EveryoneIsCounted(o: Outcome, todo: seq<User>, faults: Faults)
    ensures var end := DeleteUsers(o, todo, faults);
      && end.successCount + |end.failedIds| == o.successCount + |o.failedIds| + |todo|
      && o.audit <= end.audit && o.failedIds <= end.failedIds
      && end.successCount - o.successCount == |end.audit| - |o.audit|
    decreases todo
  {
    if todo != [] {
      EveryoneIsCounted(DeleteUser(o, todo[0], faults), todo[1..], faults);
    }
  }

  /** Nobody comes back. */
  lemma {:induction false} UsersOnlyLeave(o: Outcome, todo: seq<User>, faults: Faults, u: User)
    ensures u in DeleteUsers(o, todo, faults).users ==> u in o.users
    ensures u in o.users && u !in DeleteUsers(o, todo, faults).users ==> HasId(todo, u.id)
    decreases todo
  {
    if todo != [] {
      var next := DeleteUser(o, todo[0], faults);
      WithoutIdKeeps(o.users, todo[0].id);
      UsersOnlyLeave(next, todo[1..], faults, u);
      if HasId(todo[1..], u.id) {
        var i :| 0 <= i < |todo[1..]| && todo[1..][i].id == u.id;
        assert todo[i + 1].id == u.id;
      }
      assert todo[0].id == u.id ==> HasId(todo, u.id);
    }
  }

  /** A user in the audit rows added is gone. */
  lemma {:induction false} AuditedAreGone(o: Outcome, todo: seq<User>, faults: Faults, id: string)
    requires id in Added(o, DeleteUsers(o, todo, faults))
    ensures !HasId(DeleteUsers(o, todo, faults).users, id)
    decreases todo
  {
    if todo != [] {
      var next := DeleteUser(o, todo[0], faults);
      var end := DeleteUsers(o, todo, faults);
      EveryoneIsCounted(next, todo[1..], faults);
      WithoutIdKeeps(o.users, todo[0].id);
      if id in Added(next, end) {
        AuditedAreGone(next, todo[1..], faults, id);
      } else {
        AuditRow(o, todo[0], faults, end, id);
        forall i | 0 <= i < |end.users| ensures end.users[i].id != id {
          UsersOnlyLeave(next, todo[1..], faults, end.users[i]);
          assert end.users[i] in next.users;
        }
      }
    }
  }

  /** A new audit row is this user's or one of the later ones. */
  lemma AuditRow(o: Outcome, u: User, faults: Faults, end: Outcome, id: string)
    requires DeleteUser(o, u, faults).audit <= end.audit
    ensures id in Added(o, end) ==> id in Added(DeleteUser(o, u, faults), end) || (id == u.id && !faults.delete(u.id))
  {
    var next := DeleteUser(o, u, faults);
    var added, later := Added(o, end), Added(next, end);
    if next.audit == o.audit {
      assert added == later;
    } else {
      assert added == [u.id] + later;
    }
  }

  /** Every user removed without an audit row is reported as failed. */
  lemma {:induction false} RemovedIsAuditedOrFailed(o: Outcome, todo: seq<User>, faults: Faults, u: User)
    requires u in o.users
    ensures var end := DeleteUsers(o, todo, faults);
            u in end.users || u.id in Added(o, end) || u.id in NewFailures(o, end)
    decreases todo
  {
    EveryoneIsCounted(o, todo, faults);
    if todo != [] {
      var next, end := DeleteUser(o, todo[0], faults), DeleteUsers(o, todo, faults);
      EveryoneIsCounted(next, todo[1..], faults);
      WithoutIdKeeps(o.users, todo[0].id);
      if u in next.users {
        RemovedIsAuditedOrFailed(next, todo[1..], faults, u);
        Suffixes(o, next, end, u.id);
      } else {
        assert u.id == todo[0].id;
        if faults.audit(u.id) {
          assert end.failedIds[|o.failedIds|] == next.failedIds[|o.failedIds|] == u.id;
          assert NewFailures(o, end)[0] == u.id;
        } else {
          assert end.audit[|o.audit|] == next.audit[|o.audit|] == u.id;
          assert Added(o, end)[0] == u.id;
        }
      }
    }
  }

  lemma Suffixes(o: Outcome, next: Outcome, end: Outcome, id: string)
    requires o.audit <= next.audit <= end.audit && o.failedIds <= next.failedIds <= end.failedIds
    ensures id in Added(next, end) ==> id in Added(o, end)
    ensures id in NewFailures(next, end) ==> id in NewFailures(o, end)
  {
    var k, m := |next.audit| - |o.audit|, |next.failedIds| - |o.failedIds|;
    assert Added(next, end) == Added(o, end)[k..];
    assert NewFailures(next, end) == NewFailures(o, end)[m..];
  }

  // ---------- who ends where ----------

  /** The ids of the listed users for whom a statement raises, in order. */
  function Troubled(todo: seq<User>, faults: Faults): seq<string>
  {
    if todo == [] then []
    else
      (if faults.delete(todo[0].id) || faults.audit(todo[0].id) then [todo[0].id] else [])
      + Troubled(todo[1..], faults)
  }

  /** The ids of the others, in order. */
  function Untroubled(todo: seq<User>, faults: Faults): seq<string>
  {
    if todo == [] then []
    else
      (if faults.delete(todo[0].id) || faults.audit(todo[0].id) then [] else [todo[0].id])
      + Untroubled(todo[1..], faults)
  }

  /** The failures reported are exactly the listed users with a statement that raises, in the order of
      the list; the audit rows added, and the successes counted, are exactly the others. */
  lemma {:induction false} ReportIs(o: Outcome, todo: seq<User>, faults: Faults)
    ensures var end := DeleteUsers(o, todo, faults);
      && end.failedIds == o.failedIds + Troubled(todo, faults)
      && end.audit == o.audit + Untroubled(todo, faults)
      && end.successCount == o.successCount + |Untroubled(todo, faults)|
    decreases todo
  {
    if todo == [] {
      assert o.failedIds + [] == o.failedIds && o.audit + [] == o.audit;
    } else {
      var next := DeleteUser(o, todo[0], faults);
      ReportIs(next, todo[1..], faults);
      Associate(o.failedIds, [todo[0].id], Troubled(todo[1..], faults));
      Associate(o.audit, [todo[0].id], Untroubled(todo[1..], faults));
      assert [] + Troubled(todo[1..], faults) == Troubled(todo[1..], faults);
      assert [] + Untroubled(todo[1..], faults) == Untroubled(todo[1..], faults);
    }
  }

  lemma {:induction false} TroubledAre(todo: seq<User>, faults: Faults, id: string)
    ensures id in Troubled(todo, faults) <==> HasId(todo, id) && (faults.delete(id) || faults.audit(id))
    ensures id in Untroubled(todo, faults) <==> HasId(todo, id) && !faults.delete(id) && !faults.audit(id)
  {
    if todo != [] {
      TroubledAre(todo[1..], faults, id);
      HasIdStep(todo, id);
    }
  }

  lemma HasIdStep(todo: seq<User>, id: string)
    requires todo != []
    ensures HasId(todo, id) <==> todo[0].id == id || HasId(todo[1..], id)
  {
    if HasId(todo[1..], id) {
      var i :| 0 <= i < |todo[1..]| && todo[1..][i].id == id;
      assert todo[i + 1].id == id;
    }
    if HasId(todo, id) {
      var i :| 0 <= i < |todo| && todo[i].id == id;
      assert i > 0 ==> todo[1..][i - 1].id == id;
    }
  }

  /** Exactly the users leave that are listed and whose DELETE does not raise. */
  lemma {:induction false} LeavesIff(o: Outcome, todo: seq<User>, faults: Faults, u: User)
    ensures u in DeleteUsers(o, todo, faults).users <==>
            u in o.users && !(HasId(todo, u.id) && !faults.delete(u.id))
    decreases todo
  {
    if todo != [] {
      WithoutIdKeeps(o.users, todo[0].id);
      LeavesIff(DeleteUser(o, todo[0], faults), todo[1..], faults, u);
      HasIdStep(todo, u.id);
    }
  }

  /** Of a whole run: a user stays exactly when it was not deleted softly, or only after the cutoff, or its
      DELETE raises. */
  lemma StaysIff(users: seq<User>, audit: seq<string>, cutoff: int, faults: Faults, u: User)
    requires Keyed(users) && u in users
    ensures u in DeleteUsers(Outcome(users, audit, 0, []), EligibleUsers(users, cutoff), faults).users <==>
            u.deletedAt.None? || u.deletedAt.value > cutoff || faults.delete(u.id)
  {
    var todo := EligibleUsers(users, cutoff);
    EligibleOnly(users, cutoff);
    LeavesIff(Outcome(users, audit, 0, []), todo, faults, u);
    if HasId(todo, u.id) {
      var i :| 0 <= i < |todo| && todo[i].id == u.id;
      assert todo[i] in todo;
      SameIdSameUser(users, todo[i], u);
    }
    if u in todo {
      var i :| 0 <= i < |todo| && todo[i] == u;
      assert todo[i].id == u.id;
    }
  }

  /** The eligible users come in the order of the table. */
  lemma {:induction false} EligibleInOrder(a: seq<User>, b: seq<User>, cutoff: int)
    ensures EligibleUsers(a + b, cutoff) == EligibleUsers(a, cutoff) + EligibleUsers(b, cutoff)
  {
    if a == [] {
      assert a + b == b;
    } else {
      assert (a + b)[1..] == a[1..] + b;
      EligibleInOrder(a[1..], b, cutoff);
    }
  }

  /** A run leaves every ineligible user in place, whatever fails. */
  lemma IneligibleStay(users: seq<User>, audit: seq<string>, cutoff: int, faults: Faults, u: User)
    requires Keyed(users) && u in users && !Eligible(u, cutoff)
    ensures u in DeleteUsers(Outcome(users, audit, 0, []), EligibleUsers(users, cutoff), faults).users
  {
    var todo := EligibleUsers(users, cutoff);
    EligibleOnly(users, cutoff);
    UsersOnlyLeave(Outcome(users, audit, 0, []), todo, faults, u);
    if HasId(todo, u.id) {
      var i :| 0 <= i < |todo| && todo[i].id == u.id;
      assert todo[i] in todo;
      SameIdSameUser(users, todo[i], u);
    }
  }

  lemma SameIdSameUser(users: seq<User>, a: User, b: User)
    requires Keyed(users) && a in users && b in users
    ensures a.id == b.id ==> a == b
  {
  }
}
