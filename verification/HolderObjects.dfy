/** QueryResult and QueryResultHolder of controller/ws/ws/query_result.go as the objects they are. */
module HolderObjects {
  import opened Wrappers

  type Pointer = nat

  /** The driver's side: the results handed to `FreeResultAsync`, in order. */
  class Driver {
    var released: seq<Pointer>

    constructor ()
      ensures released == []
    {
      released := [];
    }
  }

  class QueryResult {
    var index: nat
    var taosResult: Option<Pointer>
    var block: Option<Pointer>
    const inStmt: bool

    constructor (result: Pointer, inStmt: bool)
      ensures taosResult == Some(result) && block == None && this.inStmt == inStmt && index == 0
    {
      index, taosResult, block := 0, Some(result), None;
      this.inStmt := inStmt;
    }

    /** What freeing the result would hand to the driver. */
    ghost function Owed(): seq<Pointer>
      reads this
    {
      if taosResult.Some? && !inStmt then [taosResult.value] else []
    }

    method Free(driver: Driver)
      modifies this`taosResult, this`block, driver
      ensures taosResult == None && block == None
      ensures driver.released == old(driver.released) + old(Owed())
      ensures inStmt || old(taosResult).None? ==> driver.released == old(driver.released)
      ensures !inStmt && old(taosResult).Some? ==> driver.released == old(driver.released) + [old(taosResult).value]
    {
      block := None;
      if taosResult.None? {
        return;
      }
      if inStmt {
        taosResult := None;
        return;
      }
      driver.released := driver.released + [taosResult.value];
      taosResult := None;
    }
  }

  /** What freeing every result of a list, front to back, hands to the driver. */
  ghost function OwedBy(rs: seq<QueryResult>): seq<Pointer>
    reads rs
  {
    if rs == [] then [] else rs[0].Owed() + OwedBy(rs[1..])
  }

  /** The list has a result with this pointer that no statement owns. */
  ghost predicate Owes(rs: seq<QueryResult>, p: Pointer)
    reads rs
  {
    exists i :: 0 <= i < |rs| && !rs[i].inStmt && rs[i].taosResult == Some(p)
  }

  lemma {:induction false} OwedIff(rs: seq<QueryResult>, p: Pointer)
    ensures p in OwedBy(rs) <==> Owes(rs, p)
  {
    if rs != [] {
      OwedIff(rs[1..], p);
      assert forall i :: 0 <= i < |rs| - 1 ==> rs[1..][i] == rs[i + 1];
      if Owes(rs, p) {
        var i :| 0 <= i < |rs| && !rs[i].inStmt && rs[i].taosResult == Some(p);
        assert i == 0 || rs[i] == rs[1..][i - 1];
      }
    }
  }

  class QueryResultHolder {
    var index: nat
    var results: seq<QueryResult>

    ghost predicate Valid()
      reads this, results
    {
      && (forall i, j :: 0 <= i < j < |results| ==> results[i].index < results[j].index)
      && (forall i :: 0 <= i < |results| ==> 0 < results[i].index <= index)
    }

    constructor ()
      ensures Valid() && results == [] && index == 0
    {
      index, results := 0, [];
    }

    /** The new result gets an id above every id given out before. */
    method Add(result: QueryResult) returns (id: nat)
      requires Valid() && result !in results
      modifies this, result`index
      ensures Valid()
      ensures results == old(results) + [result]
      ensures id == index == result.index == old(index) + 1
    {
      index := index + 1;
      result.index := index;
      results := results + [result];
      id := index;
    }

    /** The place of an id in the list, or the length of the list. */
    method Find(id: nat) returns (k: nat)
      ensures k <= |results|
      ensures k < |results| ==> results[k].index == id
      ensures forall i :: 0 <= i < k ==> results[i].index != id
    {
      k := 0;
      while k < |results| && results[k].index != id
        invariant k <= |results|
        invariant forall i :: 0 <= i < k ==> results[i].index != id
      {
        k := k + 1;
      }
    }

    method Get(id: nat) returns (found: QueryResult?)
      requires Valid()
      ensures found != null ==> found in results && found.index == id
      ensures found == null ==> forall r :: r in results ==> r.index != id
    {
      var k := Find(id);
      return if k < |results| then results[k] else null;
    }

    /** `free` on one item of the list and its removal. */
    method FreeAt(k: nat, driver: Driver)
      requires Valid() && k < |results|
      modifies this`results, {results[k]}`taosResult, {results[k]}`block, driver
      ensures Valid()
      ensures results == old(results)[..k] + old(results)[k + 1..]
      ensures old(results)[k].taosResult == None
      ensures var r := old(results)[k];
              driver.released == if r.inStmt || old(results[k].taosResult).None? then old(driver.released)
                                 else old(driver.released) + [old(results[k].taosResult).value]
    {
      results[k].Free(driver);
      results := results[..k] + results[k + 1..];
    }

    /**
      Exactly the result with this id leaves the list, and its pointer goes to the driver, unless a statement owns it.
    */
    method FreeResultByID(id: nat, driver: Driver)
      requires Valid()
      modifies this`results, results`taosResult, results`block, driver
      ensures Valid()
      ensures forall r :: r in results <==> r in old(results) && r.index != id
      ensures forall r :: r in results ==> r.taosResult == old(r.taosResult) && r.block == old(r.block)
      ensures forall r :: r in old(results) && r.index == id ==>
                && r.taosResult == None
                && driver.released == if r.inStmt || old(r.taosResult).None? then old(driver.released)
                                      else old(driver.released) + [old(r.taosResult).value]
      ensures (forall r :: r in old(results) ==> r.index != id) ==> driver.released == old(driver.released)
    {
      var k := Find(id);
      if k < |results| {
        assert forall i :: 0 <= i < |results| && i != k ==> results[i].index != id;
        FreeAt(k, driver);
      }
    }

    /** One turn of the loop of `FreeAll`: what is still owed moves to the driver. */
    method FreeFront(driver: Driver)
      requires Valid() && results != []
      modifies this`results, {results[0]}`taosResult, {results[0]}`block, driver
      ensures Valid()
      ensures results == old(results)[1..] && old(results)[0].taosResult == None
      ensures driver.released + OwedBy(results) == old(driver.released) + old(OwedBy(results))
    {
      ghost var first, rest := results[0], results[1..];
      ghost var done, now, later := driver.released, results[0].Owed(), OwedBy(results[1..]);
      assert (done + now) + later == done + (now + later);
      assert first !in rest by {
        assert forall i :: 0 <= i < |rest| ==> rest[i] == results[i + 1];
      }
      results[0].Free(driver);
      results := results[1..];
      assert OwedBy(rest) == later;
    }

    method FreeAll(driver: Driver)
      requires Valid()
      modifies this`results, results`taosResult, results`block, driver
      ensures Valid() && results == []
      ensures driver.released == old(driver.released) + old(OwedBy(results))
      ensures forall r :: r in old(results) ==> r.taosResult == None
      ensures forall p :: p in driver.released <==> p in old(driver.released) || old(Owes(results, p))
    {
      ghost var all, k := results, 0;
      forall p ensures p in OwedBy(results) <==> Owes(results, p) {
        OwedIff(results, p);
      }
      ghost var owed := driver.released + OwedBy(results);
      while results != []
        invariant Valid() && k <= |all| && results == all[k..]
        invariant forall i :: 0 <= i < k ==> all[i].taosResult == None
        invariant driver.released + OwedBy(results) == owed
        decreases |results|
      {
        assert all[k..][0] == all[k] && all[k..][1..] == all[k + 1..];
        FreeFront(driver);
        k := k + 1;
      }
    }
  }
}
