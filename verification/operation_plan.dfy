/**
 * The per-operation path of the table-storage data store (`SaveChangesAsync`)
 * as a pure specification: which operations it submits, in which order, for a
 * given cancellation oracle, and the reference it is proved against (one
 * submission per entry, table group after table group).
 */
module OperationPlan {
  import opened Wrappers
  import opened Linq
  import opened TableEntities
  import opened Cancellation

  /**
   * One `ExecuteAsync` call on the table of `entityType`. The operation is
   * `None` where `GetOperation` gave null: this path does not filter those out.
   */
  datatype OperationSubmission = OperationSubmission(entityType: EntityType, operation: Option<TableOperation>)

  /** The submissions so far and the number of polls of the token so far. */
  datatype Submitted = Submitted(submissions: seq<OperationSubmission>, checks: nat)

  function SubmissionOf(entry: StateEntry): OperationSubmission {
    OperationSubmission(entry.entityType, OperationFor(entry))
  }

  /**
   * `tableGroup.Select(GetOperation).TakeWhile(_ => !IsCancellationRequested)`
   * enumerated by `AddRange`: each entry's operation is computed, then the
   * token is polled, and the operation is submitted only if no cancellation
   * was seen.
   */
  function SubmitGroup(group: seq<StateEntry>, et: EntityType, p: Submitted, signal: Signal): Submitted
    decreases |group|
  {
    if group == [] then p
    else if Requested(signal, p.checks) then Submitted(p.submissions, p.checks + 1)
    else SubmitGroup(group[1..], et, Submitted(p.submissions + [OperationSubmission(et, OperationFor(group[0]))], p.checks + 1), signal)
  }

  /** The loop over table groups, which polls the token after each group and breaks on cancellation. */
  function SubmitGroups(groups: seq<(EntityType, seq<StateEntry>)>, p: Submitted, signal: Signal): Submitted {
    if groups == [] then p
    else
      var s := SubmitGroup(groups[0].1, groups[0].0, p, signal);
      if Requested(signal, s.checks) then Submitted(s.submissions, s.checks + 1)
      else SubmitGroups(groups[1..], Submitted(s.submissions, s.checks + 1), signal)
  }

  /**
   * The submissions `SaveChangesAsync` makes, for a token that has been polled
   * `checks` times before. Cancellation only cuts the reference submissions
   * short; without it they are submitted in full; and a token already
   * cancelled at its first poll submits nothing.
   */
  function PlanOperations(entries: seq<StateEntry>, signal: Signal, checks: nat): (r: Submitted)
    ensures r.submissions <= ReferenceSubmissions(entries)
    ensures signal == Never ==> r.submissions == ReferenceSubmissions(entries)
    ensures Requested(signal, checks) ==> r.submissions == []
  {
    var groups := GroupBy(entries, EntityTypeOf);
    var p := Submitted([], checks);
    GroupsCancelled(groups, p, signal);
    GroupsNever(groups, p);
    assert [] + GroupSubmissions(groups) == GroupSubmissions(groups);
    assert Requested(signal, checks) && groups != [] ==> SubmitGroup(groups[0].1, groups[0].0, p, signal).submissions == [];
    SubmitGroups(groups, p, signal)
  }

  // ---------------------------------------------------------------------------
  // The reference: one submission per entry, table group after table group
  // ---------------------------------------------------------------------------

  function Submissions(et: EntityType, group: seq<StateEntry>): (r: seq<OperationSubmission>)
    ensures |r| == |group|
    ensures forall i :: 0 <= i < |group| ==> r[i] == OperationSubmission(et, OperationFor(group[i]))
  {
    if group == [] then [] else [OperationSubmission(et, OperationFor(group[0]))] + Submissions(et, group[1..])
  }

  function GroupSubmissions(groups: seq<(EntityType, seq<StateEntry>)>): seq<OperationSubmission> {
    if groups == [] then [] else Submissions(groups[0].0, groups[0].1) + GroupSubmissions(groups[1..])
  }

  function ReferenceSubmissions(entries: seq<StateEntry>): seq<OperationSubmission> {
    GroupSubmissions(GroupBy(entries, EntityTypeOf))
  }

  // ---------------------------------------------------------------------------
  // The plan against the reference
  // ---------------------------------------------------------------------------

  lemma {:induction false} GroupNever(group: seq<StateEntry>, et: EntityType, p: Submitted)
    ensures SubmitGroup(group, et, p, Never) == Submitted(p.submissions + Submissions(et, group), p.checks + |group|)
    decreases |group|
  {
    if group != [] {
      var next := Submitted(p.submissions + [OperationSubmission(et, OperationFor(group[0]))], p.checks + 1);
      GroupNever(group[1..], et, next);
      assert Submissions(et, group) == [OperationSubmission(et, OperationFor(group[0]))] + Submissions(et, group[1..]);
    }
  }

  /**
   * With any oracle, a group submits a prefix of its operations, and it submits
   * all of them unless the token reports cancellation at the next poll.
   */
  lemma {:induction false} GroupCancelled(group: seq<StateEntry>, et: EntityType, p: Submitted, signal: Signal)
    ensures var s := SubmitGroup(group, et, p, signal);
      && p.checks <= s.checks
      && p.submissions <= s.submissions <= p.submissions + Submissions(et, group)
      && (s.submissions == p.submissions + Submissions(et, group) || Requested(signal, s.checks))
    decreases |group|
  {
    if group != [] && !Requested(signal, p.checks) {
      var op := OperationSubmission(et, OperationFor(group[0]));
      var next := Submitted(p.submissions + [op], p.checks + 1);
      var s := SubmitGroup(group[1..], et, next, signal);
      assert SubmitGroup(group, et, p, signal) == s;
      GroupCancelled(group[1..], et, next, signal);
      assert Submissions(et, group) == [op] + Submissions(et, group[1..]);
      assert p.submissions + Submissions(et, group) == next.submissions + Submissions(et, group[1..]) by {
        var whole, split := p.submissions + Submissions(et, group), next.submissions + Submissions(et, group[1..]);
        forall i | 0 <= i < |split| ensures whole[i] == split[i] {}
      }
      assert s.submissions[..|p.submissions|] == next.submissions[..|p.submissions|];
    }
  }

  lemma {:induction false} GroupsNever(groups: seq<(EntityType, seq<StateEntry>)>, p: Submitted)
    ensures SubmitGroups(groups, p, Never).submissions == p.submissions + GroupSubmissions(groups)
  {
    if groups != [] {
      var s := SubmitGroup(groups[0].1, groups[0].0, p, Never);
      GroupNever(groups[0].1, groups[0].0, p);
      GroupsNever(groups[1..], Submitted(s.submissions, s.checks + 1));
      assert p.submissions + GroupSubmissions(groups)
          == (p.submissions + Submissions(groups[0].0, groups[0].1)) + GroupSubmissions(groups[1..]);
    }
  }

  lemma {:induction false} GroupsCancelled(groups: seq<(EntityType, seq<StateEntry>)>, p: Submitted, signal: Signal)
    ensures var s := SubmitGroups(groups, p, signal);
      p.submissions <= s.submissions <= p.submissions + GroupSubmissions(groups)
  {
    if groups != [] {
      var s := SubmitGroup(groups[0].1, groups[0].0, p, signal);
      var head := Submissions(groups[0].0, groups[0].1);
      GroupCancelled(groups[0].1, groups[0].0, p, signal);
      assert p.submissions + GroupSubmissions(groups) == (p.submissions + head) + GroupSubmissions(groups[1..]);
      if !Requested(signal, s.checks) {
        GroupsCancelled(groups[1..], Submitted(s.submissions, s.checks + 1), signal);
      }
    }
  }

  // ---------------------------------------------------------------------------
  // What the reference holds
  // ---------------------------------------------------------------------------

  function SubmissionsOf(entries: seq<StateEntry>): (r: seq<OperationSubmission>)
    ensures |r| == |entries|
    ensures forall i :: 0 <= i < |entries| ==> r[i] == SubmissionOf(entries[i])
  {
    if entries == [] then [] else [SubmissionOf(entries[0])] + SubmissionsOf(entries[1..])
  }

  lemma SubmissionsOfAppend(a: seq<StateEntry>, b: seq<StateEntry>)
    ensures SubmissionsOf(a + b) == SubmissionsOf(a) + SubmissionsOf(b)
  {
    assert forall i :: 0 <= i < |a + b| ==> SubmissionsOf(a + b)[i] == (SubmissionsOf(a) + SubmissionsOf(b))[i];
  }

  lemma {:induction false} GroupSubmissionsOfMembers(groups: seq<(EntityType, seq<StateEntry>)>)
    requires forall i, e :: 0 <= i < |groups| && e in groups[i].1 ==> e.entityType == groups[i].0
    ensures GroupSubmissions(groups) == SubmissionsOf(Members(groups))
  {
    if groups != [] {
      var g := groups[0];
      assert Submissions(g.0, g.1) == SubmissionsOf(g.1) by {
        forall i | 0 <= i < |g.1| ensures Submissions(g.0, g.1)[i] == SubmissionsOf(g.1)[i] {
          assert g.1[i] in g.1;
        }
      }
      forall i, e | 0 <= i < |groups[1..]| && e in groups[1..][i].1 ensures e.entityType == groups[1..][i].0 {
        assert groups[1..][i] == groups[i + 1];
      }
      GroupSubmissionsOfMembers(groups[1..]);
      SubmissionsOfAppend(g.1, Members(groups[1..]));
    }
  }

  /** The members of a `GroupBy` are the entries themselves: as many, and each one of them. */
  lemma GroupByMembers(entries: seq<StateEntry>)
    ensures |Members(GroupBy(entries, EntityTypeOf))| == |entries|
    ensures forall e :: e in entries <==> e in Members(GroupBy(entries, EntityTypeOf))
  {
    var members := Members(GroupBy(entries, EntityTypeOf));
    GroupByIsPermutation(entries, EntityTypeOf);
    assert |members| == |multiset(members)|;
    assert |entries| == |multiset(entries)|;
    forall e ensures e in entries <==> e in members {
      assert e in entries <==> e in multiset(entries);
      assert e in members <==> e in multiset(members);
    }
  }

  lemma GroupByKeyed(entries: seq<StateEntry>)
    ensures var groups := GroupBy(entries, EntityTypeOf);
      forall i, e :: 0 <= i < |groups| && e in groups[i].1 ==> e.entityType == groups[i].0
  {
    var groups := GroupBy(entries, EntityTypeOf);
    forall i, e | 0 <= i < |groups| && e in groups[i].1 ensures e.entityType == groups[i].0 {
      GroupMember(entries, EntityTypeOf, i, e);
    }
  }

  lemma SubmissionsOfReordered(entries: seq<StateEntry>, members: seq<StateEntry>)
    requires |members| == |entries|
    requires forall e :: e in entries <==> e in members
    ensures |SubmissionsOf(members)| == |entries|
    ensures forall e :: e in entries ==> SubmissionOf(e) in SubmissionsOf(members)
    ensures forall s :: s in SubmissionsOf(members) ==> exists e :: e in entries && s == SubmissionOf(e)
  {
    forall e | e in entries ensures SubmissionOf(e) in SubmissionsOf(members) {
      var i :| 0 <= i < |members| && members[i] == e;
      assert SubmissionsOf(members)[i] == SubmissionOf(e);
    }
    forall s | s in SubmissionsOf(members) ensures exists e :: e in entries && s == SubmissionOf(e) {
      var i :| 0 <= i < |members| && SubmissionsOf(members)[i] == s;
      assert members[i] in members;
    }
  }

  /**
   * The reference submits one operation per entry, nulls included: it has as
   * many submissions as there are entries, every entry's submission is among
   * them, and every submission is some entry's.
   */
  lemma ReferenceOnePerEntry(entries: seq<StateEntry>)
    ensures |ReferenceSubmissions(entries)| == |entries|
    ensures forall e :: e in entries ==> SubmissionOf(e) in ReferenceSubmissions(entries)
    ensures forall s :: s in ReferenceSubmissions(entries) ==> exists e :: e in entries && s == SubmissionOf(e)
  {
    var groups := GroupBy(entries, EntityTypeOf);
    GroupByKeyed(entries);
    GroupSubmissionsOfMembers(groups);
    GroupByMembers(entries);
    SubmissionsOfReordered(entries, Members(groups));
  }

  function SubmissionType(s: OperationSubmission): EntityType {
    s.entityType
  }

  lemma {:induction false} GroupSubmissionsFor(entries: seq<StateEntry>, et: EntityType, ks: seq<EntityType>)
    requires Distinct(ks)
    ensures Where(GroupSubmissions(GroupsOf(ks, entries, EntityTypeOf)), SubmissionType, et)
         == if et in ks then Submissions(et, Where(entries, EntityTypeOf, et)) else []
  {
    if ks != [] {
      var gs := GroupsOf(ks, entries, EntityTypeOf);
      var first := Submissions(ks[0], Where(entries, EntityTypeOf, ks[0]));
      assert gs[1..] == GroupsOf(ks[1..], entries, EntityTypeOf);
      assert GroupSubmissions(gs) == first + GroupSubmissions(gs[1..]);
      WhereAppend(first, GroupSubmissions(gs[1..]), SubmissionType, et);
      if ks[0] == et {
        WhereAll(first, SubmissionType, et);
      } else {
        WhereNone(first, SubmissionType, et);
      }
      assert Distinct(ks[1..]);
      GroupSubmissionsFor(entries, et, ks[1..]);
      assert et in ks <==> et == ks[0] || et in ks[1..];
      assert et == ks[0] ==> et !in ks[1..];
    }
  }

  /**
   * Within one entity type's table the reference submits the entries'
   * operations in input order.
   */
  lemma ReferenceKeepsTableOrder(entries: seq<StateEntry>, et: EntityType)
    ensures Where(ReferenceSubmissions(entries), SubmissionType, et) == SubmissionsOf(Where(entries, EntityTypeOf, et))
  {
    var ks := Keys(entries, EntityTypeOf);
    var g := Where(entries, EntityTypeOf, et);
    GroupSubmissionsFor(entries, et, ks);
    if et in ks {
      forall i | 0 <= i < |g| ensures Submissions(et, g)[i] == SubmissionsOf(g)[i] {
        assert g[i] in g;
      }
    } else {
      WhereNone(entries, EntityTypeOf, et);
    }
  }
}
