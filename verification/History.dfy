/** The per-check execution history of src/core/history.py. */
module History {
  import opened BoundedDeque
  import opened Traces

  datatype Result = Result(success: bool, durationMs: real)

  datatype Record = Record(checkId: string, result: Result)

  /** Everything that was ever added for one check, in order. */
  function ResultsOf(log: Log<Record>, checkId: string): seq<Result> {
    match log
    case Start => []
    case Then(before, Record(id, result)) =>
      ResultsOf(before, checkId) + if id == checkId then [result] else []
  }

  function CountEntries(log: Log<Record>, id: string, ok: bool): nat {
    match log
    case Start => 0
    case Then(before, r) =>
      CountEntries(before, id, ok) + if r.checkId == id && r.result.success == ok then 1 else 0
  }

  function CountResults(results: seq<Result>, ok: bool): nat {
    if results == [] then 0
    else CountResults(results[..|results| - 1], ok) + if results[|results| - 1].success == ok then 1 else 0
  }

  lemma CountAppend(results: seq<Result>, r: Result, ok: bool)
    ensures CountResults(results + [r], ok) == CountResults(results, ok) + if r.success == ok then 1 else 0
  {
    assert (results + [r])[..|results|] == results;
  }

  /** No result is missed and none is taken from another check. */
  lemma {:induction false} ResultsAreAll(log: Log<Record>, id: string, ok: bool)
    ensures CountResults(ResultsOf(log, id), ok) == CountEntries(log, id, ok)
  {
    if log.Then? {
      var results := ResultsOf(log.before, id);
      ResultsAreAll(log.before, id, ok);
      if log.last.checkId == id {
        CountAppend(results, log.last.result, ok);
      } else {
        assert results + [] == results;
      }
    }
  }

  predicate Keeps(history: map<string, seq<Result>>, maxSize: nat, id: string, results: seq<Result>) {
    if id in history then results != [] && history[id] == Latest(maxSize, results) else results == []
  }

  function Added(history: map<string, seq<Result>>, maxSize: nat, id: string, result: Result)
    : map<string, seq<Result>>
  {
    history[id := Push(maxSize, if id in history then history[id] else [], result)]
  }

  lemma {:induction false} AddedKeeps(
    history: map<string, seq<Result>>, maxSize: nat, id: string, result: Result, other: string, results: seq<Result>)
    requires Keeps(history, maxSize, other, results)
    ensures Keeps(Added(history, maxSize, id, result), maxSize, other,
                  results + if id == other then [result] else [])
  {
    PushKeepsLatest(maxSize, results, result);
    assert results + [] == results;
  }

  class ExecutionHistory {
    const maxSize: nat
    var history: map<string, seq<Result>>
    ghost var log: Log<Record>

    /** Each buffer holds the latest results of its check. */
    ghost predicate Valid()
      reads this
    {
      forall id :: Keeps(history, maxSize, id, ResultsOf(log, id))
    }

    constructor (maxSize: nat)
      ensures Valid() && log == Start && this.maxSize == maxSize
    {
      this.maxSize := maxSize;
      history, log := map[], Start;
    }

    method AddResult(checkId: string, success: bool, durationMs: real)
      requires Valid()
      modifies this
      ensures Valid()
      ensures log == Then(old(log), Record(checkId, Result(success, durationMs)))
      ensures history.Keys == old(history).Keys + {checkId}
      ensures maxSize > 0 ==>
        history[checkId] != [] && history[checkId][|history[checkId]| - 1] == Result(success, durationMs)
      ensures forall id | id in old(history) && id != checkId :: history[id] == old(history)[id]
    {
      var result := Result(success, durationMs);
      forall id {
        AddedKeeps(history, maxSize, checkId, result, id, ResultsOf(log, id));
      }
      if checkId !in history {
        history := history[checkId := []];
      }
      history := history[checkId := Push(maxSize, history[checkId], result)];
      log := Then(log, Record(checkId, result));
      assert history == Added(old(history), maxSize, checkId, result);
    }

    /** The results added last for this check, at most `maxSize` of them, oldest first. */
    method GetRecent(checkId: string) returns (recent: seq<Result>)
      requires Valid()
      ensures recent == Latest(maxSize, ResultsOf(log, checkId))
      ensures AreLatest(recent, maxSize, ResultsOf(log, checkId))
    {
      assert Keeps(history, maxSize, checkId, ResultsOf(log, checkId));
      if checkId !in history {
        return [];
      }
      return history[checkId];
    }
  }
}
