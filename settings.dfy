/**
 * The stage table of the card-production pipeline: the ordered list of
 * operations, the per-operation tables of processing time, worker count and
 * worker capacity, and the successor lookup that moves a batch from one
 * stage to the next (settings.js).
 */
module Settings {

  datatype Option<T> = None | Some(value: T)

  /** The operations a card goes through, in pipeline order. */
  const Operations: seq<string> := ["paper", "cut", "assemble", "glue", "pack"]

  /** The stage whose queue is seeded with the incoming orders. */
  const FirstOperation: string := "paper"

  /** Milliseconds one workstation spends on a single unit. */
  const Times: map<string, int> := map["paper" := 20, "cut" := 70, "assemble" := 40, "glue" := 15, "pack" := 30]

  /** Configured number of workstations per operation (before any adjustment). */
  const Counts: map<string, int> := map["paper" := 3, "cut" := 3, "assemble" := 3, "glue" := 3, "pack" := 3]

  /** Largest number of units one workstation takes in a single claim. */
  const Capacities: map<string, int> := map["paper" := 40, "cut" := 60, "assemble" := 45, "glue" := 55, "pack" := 25]

  predicate IsOperation(op: string) {
    op in Operations
  }

  /**
   * The successor of an operation, exactly as the switch statement gives
   * it: 'glue' and every unlisted name fall through to the default and have
   * no successor, and 'pack' is its own successor.
   */
  function GetNextStep(operation: string): (next: Option<string>)
    ensures next.Some? ==> IsOperation(next.value)
  {
    if operation == "paper" then Some("cut")
    else if operation == "cut" then Some("assemble")
    else if operation == "assemble" then Some("glue")
    else if operation == "pack" then Some("pack")
    else None
  }

  lemma OperationsShape()
    ensures |Operations| == 5
    ensures forall i, j | 0 <= i < j < |Operations| :: Operations[i] != Operations[j]
    ensures FirstOperation == Operations[0] == "paper"
  {
  }

  /** Every operation has a positive time, count and capacity. */
  lemma TablesPositive(op: string)
    requires IsOperation(op)
    ensures op in Times && Times[op] > 0
    ensures op in Counts && Counts[op] > 0
    ensures op in Capacities && Capacities[op] > 0
  {
  }

  lemma NextStepTable(op: string)
    ensures GetNextStep("paper") == Some("cut")
    ensures GetNextStep("cut") == Some("assemble")
    ensures GetNextStep("assemble") == Some("glue")
    ensures GetNextStep("glue") == None
    ensures GetNextStep("pack") == Some("pack")
    ensures !IsOperation(op) ==> GetNextStep(op) == None
  {
  }

  /** The stage reached after following GetNextStep n times from op. */
  function Follow(op: string, n: nat): (r: Option<string>)
    ensures r.Some? && n > 0 ==> IsOperation(r.value)
    decreases n
  {
    if n == 0 then Some(op)
    else match GetNextStep(op)
      case None => None
      case Some(next) => Follow(next, n - 1)
  }

  /** Once a walk ends it stays ended. */
  lemma {:induction false} FollowPastEnd(op: string, n: nat, m: nat)
    requires Follow(op, n) == None
    requires n <= m
    ensures Follow(op, m) == None
    decreases n
  {
    if n > 0 {
      match GetNextStep(op)
      case None =>
      case Some(next) => FollowPastEnd(next, n - 1, m - 1);
    }
  }

  /**
   * From the first operation a batch visits paper, cut, assemble and glue and
   * then leaves the pipeline: after exactly three steps it is at 'glue', the
   * fourth step ends the walk, and 'pack' is never reached.
   */
  lemma {:induction false} WalkFromFirst()
    ensures Follow(FirstOperation, 1) == Some("cut")
    ensures Follow(FirstOperation, 2) == Some("assemble")
    ensures Follow(FirstOperation, 3) == Some("glue")
    ensures forall n: nat | n >= 4 :: Follow(FirstOperation, n) == None
    ensures forall n: nat :: Follow(FirstOperation, n) != Some("pack")
  {
    assert Follow("glue", 1) == None;
    assert Follow("assemble", 2) == None;
    assert Follow("cut", 3) == None;
    assert F4: Follow(FirstOperation, 4) == None;
    forall n: nat | n >= 4 ensures Follow(FirstOperation, n) == None {
      FollowPastEnd(FirstOperation, 4, n);
    }
    forall n: nat ensures Follow(FirstOperation, n) != Some("pack") {
      if n >= 4 {
        FollowPastEnd(FirstOperation, 4, n);
      } else {
        assert n == 0 || n == 1 || n == 2 || n == 3;
      }
    }
  }

  /** Position of an operation in the pipeline list. */
  function IndexOf(op: string): (k: nat)
    requires IsOperation(op)
    ensures k < |Operations| && Operations[k] == op
  {
    if op == "paper" then 0
    else if op == "cut" then 1
    else if op == "assemble" then 2
    else if op == "glue" then 3
    else 4
  }

  /**
   * The successor getNextStep is documented to return, "the next step, or
   * null if finished": each operation is followed by the next one in the
   * list, and the last one, 'pack', by none.
   */
  function NextStage(operation: string): (next: Option<string>)
    ensures next.Some? ==> IsOperation(next.value)
  {
    if operation == "paper" then Some("cut")
    else if operation == "cut" then Some("assemble")
    else if operation == "assemble" then Some("glue")
    else if operation == "glue" then Some("pack")
    else None
  }

  /** NextStage agrees with the order of the operation list. */
  lemma NextStageFollowsList(op: string)
    ensures IsOperation(op) && IndexOf(op) + 1 < |Operations| ==> NextStage(op) == Some(Operations[IndexOf(op) + 1])
    ensures IsOperation(op) && IndexOf(op) + 1 == |Operations| ==> NextStage(op) == None
    ensures !IsOperation(op) ==> NextStage(op) == None
  {
  }

  /** With the list-order successor every operation is visited, pack last. */
  lemma {:induction false} NextStageVisitsAll()
    ensures forall k: nat | k < |Operations| :: FollowNext(FirstOperation, k) == Some(Operations[k])
    ensures FollowNext(FirstOperation, |Operations|) == None
  {
    forall k: nat | k < |Operations| ensures FollowNext(FirstOperation, k) == Some(Operations[k]) {
      FollowNextFrom(k);
    }
    FollowNextFrom(|Operations| - 1);
  }

  function FollowNext(op: string, n: nat): (r: Option<string>)
    decreases n
  {
    if n == 0 then Some(op)
    else match NextStage(op)
      case None => None
      case Some(next) => FollowNext(next, n - 1)
  }

  lemma {:induction false} FollowNextFrom(k: nat)
    requires k < |Operations|
    ensures FollowNext(FirstOperation, k) == Some(Operations[k])
    ensures k == |Operations| - 1 ==> FollowNext(FirstOperation, k + 1) == None
  {
    if k > 0 {
      FollowNextFrom(k - 1);
      FollowNextStep(FirstOperation, k - 1);
    }
    if k == |Operations| - 1 {
      FollowNextStep(FirstOperation, k);
    }
  }

  lemma {:induction false} FollowNextStep(op: string, n: nat)
    ensures FollowNext(op, n + 1) == match FollowNext(op, n)
      case None => None
      case Some(s) => NextStage(s)
    decreases n
  {
    if n > 0 {
      match NextStage(op)
      case None =>
      case Some(next) => FollowNextStep(next, n - 1);
    }
  }
}
