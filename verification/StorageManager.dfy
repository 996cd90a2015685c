/** The second consumer's work on one iteration (src/storage_manager.c:119-189): bounded retries, at
    most one row per reading, and a statement handle that never outlives its iteration. */
module StorageManager {
  import opened Common

  /** One call of sbuffer_pop: a reading, or -1 together with what the flag reads afterwards. */
  datatype PopAnswer = Popped(reading: Reading) | Failed(flag: bool)

  datatype PopOutcome = Got(reading: Reading) | Skip | Leave

  /** Lines 126-141, the same in both consumers: a reading as soon as one of at most three pops
      succeeds, an exit as soon as one fails after shutdown, otherwise this iteration is skipped. */
  method PopWithRetries(answers: nat -> PopAnswer) returns (outcome: PopOutcome, calls: nat)
    ensures outcome.Skip? <==> forall j: nat :: j < 3 ==> answers(j).Failed? && !answers(j).flag
    ensures outcome.Skip? ==> calls == 3
    ensures !outcome.Skip? ==> 1 <= calls <= 3 && forall j: nat :: j < calls - 1 ==> answers(j).Failed? && !answers(j).flag
    ensures outcome.Got? ==> calls >= 1 && answers(calls - 1) == Popped(outcome.reading)
    ensures outcome.Leave? ==> calls >= 1 && answers(calls - 1) == Failed(true)
  {
    var retries: nat := 0;
    while retries < MAX_RETRIES
      invariant retries <= MAX_RETRIES
      invariant forall j: nat :: j < retries ==> answers(j).Failed? && !answers(j).flag
    {
      match answers(retries)
      case Popped(r) => return Got(r), retries + 1;
      case Failed(flag) =>
        if flag {
          return Leave, retries + 1;
        }
        retries := retries + 1;
    }
    return Skip, retries;
  }

  class Storage {
    /** The measurements table. */
    var rows: seq<Reading>
    /** The prepared statement: the reading bound to it is what a step inserts. */
    var statement: bool
    /** Statements prepared and finalized so far. */
    ghost var prepared: nat
    ghost var finalized: nat

    ghost predicate Valid()
      reads this
    {
      prepared == finalized + (if statement then 1 else 0)
    }

    constructor ()
      ensures Valid() && rows == [] && !statement
    {
      rows, statement := [], false;
      prepared, finalized := 0, 0;
    }

    /** Lines 143-189 for one reading. `prepare`, `bind` and `step` are the database's answers. */
    method Store(data: Reading, prepare: nat -> bool, bind: bool, step: nat -> bool) returns (stored: bool)
      requires Valid() && !statement
      modifies this
      ensures Valid() && !statement
      ensures stored <==> (prepare(0) || prepare(1) || prepare(2)) && bind && (step(0) || step(1) || step(2))
      ensures rows == old(rows) + (if stored then [data] else [])
      ensures finalized == old(finalized) + (if prepare(0) || prepare(1) || prepare(2) then 1 else 0)
    {
      stored := false;
      var tries: nat := 0;
      while tries < MAX_RETRIES && !prepare(tries)
        invariant tries <= MAX_RETRIES && forall j: nat :: j < tries ==> !prepare(j)
      {
        tries := tries + 1;
      }
      if tries == MAX_RETRIES {
        return;
      }
      statement, prepared := true, prepared + 1;
      if bind {
        tries := 0;
        while tries < MAX_RETRIES && !step(tries)
          invariant tries <= MAX_RETRIES && forall j: nat :: j < tries ==> !step(j)
        {
          tries := tries + 1;
        }
        if tries < MAX_RETRIES {
          rows := rows + [data];
          stored := true;
        }
      }
      statement, finalized := false, finalized + 1;
    }
  }
}
