/**
 * The vault client's open issue requests and the memo index over them. The listeners and
 * the execution tasks update both maps under both locks, so each update is one step; a
 * task looks its memo up in one step and removes the request in a later one.
 */
module MemoIndex {
  import opened Wrappers
  import opened RequestIds

  type Request(==, !new)

  /** A task that looked up `id` under `memo` and waits for the chain to execute it. */
  datatype Lookup = Lookup(id: IssueId, memo: Memo)

  datatype Index = Index(issues: map<IssueId, Request>, memos: map<Memo, IssueId>, tasks: seq<Lookup>)

  const START := Index(map[], map[], [])

  datatype Step =
    // at start-up for each active request, and on a request event
    | Add(id: IssueId, request: Request)
    // on a cancel or an execute event, for any vault's request
    | Remove(id: IssueId)
    // a task finds the id for its memo, and later, on success, removes both
    | Find(memo: Memo)
    | Done(task: nat)

  function Apply(x: Index, step: Step): Index {
    match step
    case Add(id, request) => x.(issues := x.issues[id := request], memos := x.memos[id.memo := id])
    case Remove(id) => x.(issues := x.issues - {id}, memos := x.memos - {id.memo})
    case Find(memo) => if memo in x.memos then x.(tasks := x.tasks + [Lookup(x.memos[memo], memo)]) else x
    case Done(i) =>
      if i < |x.tasks| then
        x.(issues := x.issues - {x.tasks[i].id}, memos := x.memos - {x.tasks[i].memo})
      else x
  }

  function Run(steps: seq<Step>): Index {
    if steps == [] then START
    else Apply(Run(steps[..|steps| - 1]), steps[|steps| - 1])
  }

  /** The index is exactly the inverse of the requests under their shortened ids. */
  ghost predicate Inverse(x: Index) {
    && (forall id :: id in x.issues ==> id.memo in x.memos && x.memos[id.memo] == id)
    && (forall memo :: memo in x.memos ==> x.memos[memo] in x.issues && x.memos[memo].memo == memo)
  }

  /** Whatever collides, an entry leads to an id with that memo, and so does every task. */
  ghost predicate Sound(x: Index) {
    && (forall memo :: memo in x.memos ==> x.memos[memo].memo == memo)
    && (forall i :: 0 <= i < |x.tasks| ==> x.tasks[i].id.memo == x.tasks[i].memo)
  }

  /** The id a step adds or removes, if any. */
  function Touched(x: Index, step: Step): Option<IssueId> {
    match step
    case Add(id, _) => Some(id)
    case Remove(id) => Some(id)
    case Find(_) => None
    case Done(i) => if i < |x.tasks| then Some(x.tasks[i].id) else None
  }

  /** The touched id shares its memo with no other listed request. */
  ghost predicate Distinct(x: Index, step: Step) {
    forall id :: id in x.issues && Touched(x, step).Some? && id != Touched(x, step).value ==>
      id.memo != Touched(x, step).value.memo
  }

  lemma StepKeepsSound(x: Index, step: Step)
    requires Sound(x)
    ensures Sound(Apply(x, step))
  {
  }

  lemma StepKeepsInverse(x: Index, step: Step)
    requires Sound(x) && Inverse(x) && Distinct(x, step)
    ensures Inverse(Apply(x, step))
  {
  }

  lemma ClashBreaksInverse(x: Index, step: Step)
    requires Sound(x) && !Distinct(x, step)
    ensures !Inverse(Apply(x, step))
  {
    var touched := Touched(x, step).value;
    var id :| id in x.issues && id != touched && id.memo == touched.memo;
    assert id in Apply(x, step).issues;
  }

  lemma {:induction false} RunIsSound(steps: seq<Step>)
    ensures Sound(Run(steps))
  {
    if steps != [] {
      RunIsSound(steps[..|steps| - 1]);
      StepKeepsSound(Run(steps[..|steps| - 1]), steps[|steps| - 1]);
    }
  }

  ghost predicate DistinctAt(steps: seq<Step>, i: nat)
    requires i < |steps|
  {
    Distinct(Run(steps[..i]), steps[i])
  }

  lemma {:induction false} DistinctRunInverse(steps: seq<Step>)
    requires forall i :: 0 <= i < |steps| ==> DistinctAt(steps, i)
    ensures Inverse(Run(steps))
  {
    if steps != [] {
      var n := |steps| - 1;
      forall i | 0 <= i < n ensures DistinctAt(steps[..n], i) {
        assert DistinctAt(steps, i);
        assert steps[..n][..i] == steps[..i];
      }
      DistinctRunInverse(steps[..n]);
      RunIsSound(steps[..n]);
      assert DistinctAt(steps, n);
      StepKeepsInverse(Run(steps[..n]), steps[n]);
    }
  }

  /**
   * The memo index agrees with the request map at every point of an interleaving if and
   * only if no step adds or removes an id whose memo another listed request has.
   */
  lemma InverseIffDistinct(steps: seq<Step>)
    ensures (forall i :: 0 <= i <= |steps| ==> Inverse(Run(steps[..i]))) <==>
            (forall i :: 0 <= i < |steps| ==> DistinctAt(steps, i))
  {
    if forall i :: 0 <= i < |steps| ==> DistinctAt(steps, i) {
      forall i | 0 <= i <= |steps| ensures Inverse(Run(steps[..i])) {
        forall j | 0 <= j < i ensures DistinctAt(steps[..i], j) {
          assert DistinctAt(steps, j);
          assert steps[..i][..j] == steps[..j];
        }
        DistinctRunInverse(steps[..i]);
      }
    } else {
      var i :| 0 <= i < |steps| && !DistinctAt(steps, i);
      RunIsSound(steps[..i]);
      ClashBreaksInverse(Run(steps[..i]), steps[i]);
      assert steps[..i + 1][..i] == steps[..i];
      assert !Inverse(Run(steps[..i + 1]));
    }
  }

  /** The ids that the events of a run bring in. */
  function Mentioned(steps: seq<Step>): set<IssueId> {
    set i | 0 <= i < |steps| && (steps[i].Add? || steps[i].Remove?) :: steps[i].id
  }

  /** Whatever is listed, indexed or in flight was mentioned by an event. */
  lemma {:induction false} OnlyMentioned(steps: seq<Step>)
    ensures var x := Run(steps);
            && x.issues.Keys <= Mentioned(steps)
            && (forall memo :: memo in x.memos ==> x.memos[memo] in Mentioned(steps))
            && (forall i :: 0 <= i < |x.tasks| ==> x.tasks[i].id in Mentioned(steps))
  {
    if steps != [] {
      var n := |steps| - 1;
      OnlyMentioned(steps[..n]);
      assert forall i :: 0 <= i < n ==> steps[..n][i] == steps[i];
      assert Mentioned(steps[..n]) <= Mentioned(steps);
      assert steps[n].Add? || steps[n].Remove? ==> steps[n].id in Mentioned(steps);
    }
  }

  lemma {:induction false} MentionedPrefix(steps: seq<Step>, i: nat)
    requires i < |steps|
    ensures Mentioned(steps[..i]) <= Mentioned(steps)
    ensures Touched(Run(steps[..i]), steps[i]).Some? ==> Touched(Run(steps[..i]), steps[i]).value in Mentioned(steps)
  {
    assert forall j :: 0 <= j < i ==> steps[..i][j] == steps[j];
    OnlyMentioned(steps[..i]);
  }

  /** If the events mention no two ids with one memo, every interleaving keeps the index. */
  lemma DistinctMemosKeepIndex(steps: seq<Step>)
    requires DistinctMemos(Mentioned(steps))
    ensures Inverse(Run(steps))
  {
    forall i | 0 <= i < |steps| ensures DistinctAt(steps, i) {
      OnlyMentioned(steps[..i]);
      MentionedPrefix(steps, i);
    }
    DistinctRunInverse(steps);
  }

  /** The request `is_relevant` finds for a memo: through the index, then through the requests. */
  function Relevant(x: Index, memo: Memo): Option<Request> {
    if memo in x.memos && x.memos[memo] in x.issues then Some(x.issues[x.memos[memo]]) else None
  }

  /** With the index intact, a transaction's memo finds a request exactly when one with that memo is listed. */
  lemma RelevantFindsListed(x: Index, memo: Memo)
    requires Inverse(x)
    ensures Relevant(x, memo).Some? <==> exists id :: id in x.issues && id.memo == memo
    ensures forall id :: id in x.issues && id.memo == memo ==> Relevant(x, memo) == Some(x.issues[id])
  {
    if Relevant(x, memo).Some? {
      assert x.memos[memo] in x.issues && x.memos[memo].memo == memo;
    }
  }

  // ---------- What is listed, by the steps alone

  /** Step `j` takes the request `id` off the list: an event removes it, or a task that found it is done. */
  predicate Drops(steps: seq<Step>, j: nat, id: IssueId)
    requires j < |steps|
  {
    || steps[j] == Remove(id)
    || (steps[j].Done? && steps[j].task < |Run(steps[..j]).tasks| && Run(steps[..j]).tasks[steps[j].task].id == id)
  }

  /** Step `i` is an addition of `id` that nothing has overtaken since: neither a drop nor another addition. */
  predicate LastAddition(steps: seq<Step>, i: nat, id: IssueId)
    requires i < |steps|
  {
    && steps[i].Add? && steps[i].id == id
    && (forall j :: i < j < |steps| ==> !Drops(steps, j, id) && !(steps[j].Add? && steps[j].id == id))
  }

  lemma DropsPrefix(steps: seq<Step>, j: nat, id: IssueId)
    requires j < |steps| - 1
    ensures Drops(steps[..|steps| - 1], j, id) <==> Drops(steps, j, id)
  {
    assert steps[..|steps| - 1][..j] == steps[..j];
  }

  lemma LastAdditionPrefix(steps: seq<Step>, i: nat, id: IssueId)
    requires i < |steps| - 1
    ensures LastAddition(steps, i, id) <==>
              && LastAddition(steps[..|steps| - 1], i, id)
              && !Drops(steps, |steps| - 1, id)
              && !(steps[|steps| - 1].Add? && steps[|steps| - 1].id == id)
  {
    var prefix := steps[..|steps| - 1];
    forall j | 0 <= j < |prefix| ensures Drops(prefix, j, id) <==> Drops(steps, j, id) {
      DropsPrefix(steps, j, id);
    }
  }

  /** A listed request comes from its last addition. */
  lemma {:induction false} ListedHasAddition(steps: seq<Step>, id: IssueId) returns (i: nat)
    requires id in Run(steps).issues
    ensures i < |steps| && LastAddition(steps, i, id) && steps[i].request == Run(steps).issues[id]
  {
    var n := |steps| - 1;
    if steps[n].Add? && steps[n].id == id {
      i := n;
    } else {
      i := ListedHasAddition(steps[..n], id);
      LastAdditionPrefix(steps, i, id);
    }
  }

  lemma {:induction false} AdditionIsListed(steps: seq<Step>, i: nat, id: IssueId)
    requires i < |steps| && LastAddition(steps, i, id)
    ensures id in Run(steps).issues && Run(steps).issues[id] == steps[i].request
  {
    var n := |steps| - 1;
    if i < n {
      LastAdditionPrefix(steps, i, id);
      AdditionIsListed(steps[..n], i, id);
    }
  }

  /**
   * After any interleaving, a request is listed if and only if it was added and since then
   * neither removed nor executed by a task that found it; its content is the one added last.
   */
  lemma ListedIff(steps: seq<Step>, id: IssueId)
    ensures id in Run(steps).issues <==> exists i :: 0 <= i < |steps| && LastAddition(steps, i, id)
    ensures forall i :: 0 <= i < |steps| && LastAddition(steps, i, id) ==>
              id in Run(steps).issues && Run(steps).issues[id] == steps[i].request
  {
    if id in Run(steps).issues {
      var i := ListedHasAddition(steps, id);
    }
    forall i | 0 <= i < |steps| && LastAddition(steps, i, id)
      ensures id in Run(steps).issues && Run(steps).issues[id] == steps[i].request
    {
      AdditionIsListed(steps, i, id);
    }
  }

  // ---------- What is indexed, by the steps alone

  /** Step `j` takes the entry of `memo` off the index. */
  predicate Unindexes(steps: seq<Step>, j: nat, memo: Memo)
    requires j < |steps|
  {
    || (steps[j].Remove? && steps[j].id.memo == memo)
    || (steps[j].Done? && steps[j].task < |Run(steps[..j]).tasks| && Run(steps[..j]).tasks[steps[j].task].memo == memo)
  }

  predicate LastIndexing(steps: seq<Step>, i: nat, memo: Memo)
    requires i < |steps|
  {
    && steps[i].Add? && steps[i].id.memo == memo
    && (forall j :: i < j < |steps| ==> !Unindexes(steps, j, memo) && !(steps[j].Add? && steps[j].id.memo == memo))
  }

  lemma LastIndexingPrefix(steps: seq<Step>, i: nat, memo: Memo)
    requires i < |steps| - 1
    ensures LastIndexing(steps, i, memo) <==>
              && LastIndexing(steps[..|steps| - 1], i, memo)
              && !Unindexes(steps, |steps| - 1, memo)
              && !(steps[|steps| - 1].Add? && steps[|steps| - 1].id.memo == memo)
  {
    var prefix := steps[..|steps| - 1];
    forall j | 0 <= j < |prefix| ensures Unindexes(prefix, j, memo) <==> Unindexes(steps, j, memo) {
      assert prefix[..j] == steps[..j];
    }
  }

  lemma {:induction false} EntryHasIndexing(steps: seq<Step>, memo: Memo) returns (i: nat)
    requires memo in Run(steps).memos
    ensures i < |steps| && LastIndexing(steps, i, memo) && steps[i].id == Run(steps).memos[memo]
  {
    var n := |steps| - 1;
    if steps[n].Add? && steps[n].id.memo == memo {
      i := n;
    } else {
      i := EntryHasIndexing(steps[..n], memo);
      LastIndexingPrefix(steps, i, memo);
    }
  }

  lemma {:induction false} IndexingHasEntry(steps: seq<Step>, i: nat, memo: Memo)
    requires i < |steps| && LastIndexing(steps, i, memo)
    ensures memo in Run(steps).memos && Run(steps).memos[memo] == steps[i].id
  {
    var n := |steps| - 1;
    if i < n {
      LastIndexingPrefix(steps, i, memo);
      IndexingHasEntry(steps[..n], i, memo);
    }
  }

  /** After any interleaving, a memo leads to the id added last with it, unless the memo was taken off since. */
  lemma IndexedIff(steps: seq<Step>, memo: Memo)
    ensures memo in Run(steps).memos <==> exists i :: 0 <= i < |steps| && LastIndexing(steps, i, memo)
    ensures forall i :: 0 <= i < |steps| && LastIndexing(steps, i, memo) ==>
              memo in Run(steps).memos && Run(steps).memos[memo] == steps[i].id
  {
    if memo in Run(steps).memos {
      var i := EntryHasIndexing(steps, memo);
    }
    forall i | 0 <= i < |steps| && LastIndexing(steps, i, memo)
      ensures memo in Run(steps).memos && Run(steps).memos[memo] == steps[i].id
    {
      IndexingHasEntry(steps, i, memo);
    }
  }

  /** A removed request is no longer relevant: its memo finds nothing until a request with it is added. */
  lemma RemovedIsIrrelevant(steps: seq<Step>, k: nat, memo: Memo)
    requires k < |steps| && Unindexes(steps, k, memo)
    requires forall j :: k < j < |steps| ==> !(steps[j].Add? && steps[j].id.memo == memo)
    ensures Relevant(Run(steps), memo) == None
  {
    if memo in Run(steps).memos {
      var i := EntryHasIndexing(steps, memo);
    }
  }

  /** A lookup puts exactly the indexed id in flight, and nothing else changes what is in flight. */
  lemma FoundIsInFlight(x: Index, step: Step)
    ensures Apply(x, step).tasks ==
            x.tasks + if step.Find? && step.memo in x.memos then [Lookup(x.memos[step.memo], step.memo)] else []
  {
  }

  /** The shortest broken run: of two listed requests with one memo, the filter finds only the second. */
  lemma SharedMemoHides(a: IssueId, b: IssueId, first: Request, second: Request)
    requires a != b && a.memo == b.memo
    ensures var x := Run([Add(a, first), Add(b, second)]);
            && !Inverse(x) && a in x.issues && b in x.issues
            && Relevant(x, a.memo) == Some(second)
  {
    var steps := [Add(a, first), Add(b, second)];
    assert steps[..1] == [Add(a, first)] && [Add(a, first)][..0] == [];
    assert Run(steps[..1]) == Apply(START, Add(a, first));
  }

  // ---------- The maps themselves

  lemma RunKeepsLaws(steps: seq<Step>)
    ensures Sound(Run(steps)) && (DistinctMemos(Mentioned(steps)) ==> Inverse(Run(steps)))
  {
    RunIsSound(steps);
    if DistinctMemos(Mentioned(steps)) {
      DistinctMemosKeepIndex(steps);
    }
  }

  lemma RunSnoc(steps: seq<Step>, step: Step)
    ensures Run(steps + [step]) == Apply(Run(steps), step)
  {
    assert (steps + [step])[..|steps|] == steps;
  }

  /** The start-up requests as steps. */
  function Additions(requests: seq<(IssueId, Request)>): seq<Step> {
    seq(|requests|, i requires 0 <= i < |requests| => Add(requests[i].0, requests[i].1))
  }

  class Maps {
    var issues: map<IssueId, Request>
    var memos: map<Memo, IssueId>
    // the executions in flight, each with the memo it looked up
    var tasks: seq<Lookup>

    constructor ()
      ensures State() == START
    {
      issues, memos, tasks := map[], map[], [];
    }

    function State(): Index
      reads this
    {
      Index(issues, memos, tasks)
    }

    method Insert(id: IssueId, request: Request)
      modifies this
      ensures State() == Apply(old(State()), Add(id, request))
    {
      issues := issues[id := request];
      memos := memos[id.memo := id];
    }

    /** A cancel or execute event. */
    method Delete(id: IssueId)
      modifies this
      ensures State() == Apply(old(State()), Remove(id))
    {
      issues := issues - {id};
      memos := memos - {id.memo};
    }

    method StartExecution(memo: Memo)
      modifies this
      ensures State() == Apply(old(State()), Find(memo))
    {
      if memo in memos {
        tasks := tasks + [Lookup(memos[memo], memo)];
      }
    }

    /** After a successful execution: removes the id that was found and the memo that was looked up. */
    method Complete(task: nat)
      modifies this
      ensures State() == Apply(old(State()), Done(task))
    {
      if task < |tasks| {
        issues := issues - {tasks[task].id};
        memos := memos - {tasks[task].memo};
      }
    }

    method Perform(step: Step)
      modifies this
      ensures State() == Apply(old(State()), step)
    {
      match step {
        case Add(id, request) => Insert(id, request);
        case Remove(id) => Delete(id);
        case Find(memo) => StartExecution(memo);
        case Done(task) => Complete(task);
      }
    }

    /** Inserts the active requests one by one, as at start-up. */
    method Initialize(requests: seq<(IssueId, Request)>)
      requires State() == START
      modifies this
      ensures State() == Run(Additions(requests))
    {
      for i := 0 to |requests|
        invariant State() == Run(Additions(requests)[..i])
      {
        assert Additions(requests)[..i + 1][..i] == Additions(requests)[..i];
        Insert(requests[i].0, requests[i].1);
      }
      assert Additions(requests)[..|requests|] == Additions(requests);
    }

    method Follow(ghost done: seq<Step>, steps: seq<Step>)
      requires State() == Run(done)
      modifies this
      ensures State() == Run(done + steps)
    {
      assert done + steps[..0] == done;
      for i := 0 to |steps|
        invariant State() == Run(done + steps[..i])
      {
        RunSnoc(done + steps[..i], steps[i]);
        assert done + steps[..i] + [steps[i]] == done + steps[..i + 1];
        Perform(steps[i]);
      }
      assert steps[..|steps|] == steps;
    }

    /**
     * The listeners and the execution tasks in any interleaving, after any start-up. What is
     * indexed or in flight leads to its memo, and the index is exactly the inverse of the
     * requests if no two ids that came up share a memo.
     */
    method Interleave(requests: seq<(IssueId, Request)>, steps: seq<Step>)
      requires State() == START
      modifies this
      ensures State() == Run(Additions(requests) + steps)
      ensures Sound(State())
      ensures DistinctMemos(Mentioned(Additions(requests) + steps)) ==> Inverse(State())
    {
      Initialize(requests);
      Follow(Additions(requests), steps);
      RunKeepsLaws(Additions(requests) + steps);
    }
  }
}
