/** How create_arrow finds its two endpoints: one pass over the element list that
    keeps the LAST element whose id is the start id, and — through `elif` — the last
    element whose id is the end id but not the start id. A None entry in the list
    stops the pass with a TypeError. */
module Lookup {
  import opened Ids
  import opened Elements

  /** Outcome of the endpoint scan: the pass hit a None entry, or the endpoints found (null if missing). */
  datatype Lookup = Crash | Endpoints(start: Element?, end: Element?)

  /** The scan as the source's `for element in self.elements` loop performs it,
      one element at a time from the front. */
  function Scan(es: seq<Element?>, startId: string, endId: string): (r: Lookup)
    ensures r.Crash? <==> null in es
    ensures r.Endpoints? && r.start != null ==> r.start in es && r.start.base.id == startId
    ensures r.Endpoints? && r.end != null ==> r.end in es && r.end.base.id == endId && endId != startId
  {
    if es == [] then Endpoints(null, null)
    else
      match Scan(es[..|es| - 1], startId, endId)
      case Crash => Crash
      case Endpoints(s, e) =>
        var x := es[|es| - 1];
        if x == null then Crash
        else if x.base.id == startId then Endpoints(x, e)
        else if x.base.id == endId then Endpoints(s, x)
        else Endpoints(s, e)
  }

  /** The last element of es with the given id, or null if there is none. */
  function LastWithId(es: seq<Element?>, id: string): Element?
  {
    if es == [] then null
    else if es[|es| - 1] != null && es[|es| - 1].base.id == id then es[|es| - 1]
    else LastWithId(es[..|es| - 1], id)
  }

  /** LastWithId finds an element exactly when one with that id is present. */
  lemma {:induction false} LastWithIdFound(es: seq<Element?>, id: string)
    ensures LastWithId(es, id) != null <==> exists k :: 0 <= k < |es| && es[k] != null && es[k].base.id == id
    ensures LastWithId(es, id) != null ==> LastWithId(es, id) in es && LastWithId(es, id).base.id == id
  {
    if es != [] {
      var init := es[..|es| - 1];
      LastWithIdFound(init, id);
      if LastWithId(es, id) == null {
        forall k | 0 <= k < |es| && es[k] != null
          ensures es[k].base.id != id
        {
          if k < |es| - 1 { assert es[k] == init[k]; }
        }
      } else if LastWithId(es, id) != es[|es| - 1] {
        var k :| 0 <= k < |init| && init[k] != null && init[k].base.id == id;
        assert es[k] == init[k];
      }
    }
  }

  /** An element with no later element of the same id is the one LastWithId picks. */
  lemma {:induction false} LastWithIdAt(es: seq<Element?>, j: nat)
    requires j < |es| && es[j] != null
    requires forall b :: j < b < |es| && es[b] != null ==> es[b].base.id != es[j].base.id
    ensures LastWithId(es, es[j].base.id) == es[j]
  {
    if j < |es| - 1 {
      var init := es[..|es| - 1];
      assert init[j] == es[j];
      forall b | j < b < |init| && init[b] != null
        ensures init[b].base.id != init[j].base.id
      {
        assert init[b] == es[b];
      }
      LastWithIdAt(init, j);
    }
  }

  /** The scan fails exactly when the list holds a None; otherwise it finds the last
      element with the start id and, only when the two ids differ, the last element with the end id. */
  lemma {:induction false} ScanSpec(es: seq<Element?>, startId: string, endId: string)
    ensures null in es ==> Scan(es, startId, endId) == Crash
    ensures null !in es ==>
              Scan(es, startId, endId) ==
              Endpoints(LastWithId(es, startId), if startId == endId then null else LastWithId(es, endId))
  {
    if es != [] {
      var init := es[..|es| - 1];
      ScanSpec(init, startId, endId);
      assert es == init + [es[|es| - 1]];
      if null in es && null !in init {
        assert es[|es| - 1] == null;
      }
    }
  }

  /** An arrow from an element to itself can never be created: the end is never found. */
  lemma SelfArrowNeverFound(es: seq<Element?>, id: string)
    ensures Scan(es, id, id).Crash? || Scan(es, id, id).end == null
  {
    ScanSpec(es, id, id);
  }

  /** The objects create_arrow changes: the endpoints its scan finds. */
  ghost function Targets(es: seq<Element?>, startId: string, endId: string): set<Element>
  {
    match Scan(es, startId, endId)
    case Crash => {}
    case Endpoints(s, e) =>
      (if s != null then {s} else {}) + (if e != null then {e} else {})
  }

  /** With two elements of different ids appended after a list without None, the scan
      between them finds exactly those two. */
  lemma ScanAppendedPair(prefix: seq<Element?>, s: Element, e: Element)
    requires null !in prefix && s.base.id != e.base.id
    ensures Scan(prefix + [s, e], s.base.id, e.base.id) == Endpoints(s, e)
    ensures Targets(prefix + [s, e], s.base.id, e.base.id) == {s, e}
  {
    var es := prefix + [s, e];
    assert es[..|es| - 1] == prefix + [s];
    assert LastWithId(es, s.base.id) == s;
    ScanSpec(es, s.base.id, e.base.id);
  }

  /** Entries a and b of es do not share an id (a None shares nothing). */
  predicate Apart(es: seq<Element?>, a: nat, b: nat)
    requires a < |es| && b < |es|
  {
    es[a] == null || es[b] == null || es[a].base.id != es[b].base.id
  }

  /** No two elements of es share an id: true of every run of elements a layout creates,
      since each id comes from a fresh counter value. */
  ghost predicate DistinctIds(es: seq<Element?>)
  {
    forall a, b :: 0 <= a < b < |es| ==> Apart(es, a, b)
  }

  /** Appending an element whose id no earlier element has keeps the ids distinct. */
  lemma DistinctIdsAppend(es: seq<Element?>, x: Element?)
    requires DistinctIds(es)
    requires x != null ==> forall a :: 0 <= a < |es| && es[a] != null ==> es[a].base.id != x.base.id
    ensures DistinctIds(es + [x])
  {
    var es' := es + [x];
    forall a, b | 0 <= a < b < |es'|
      ensures Apart(es', a, b)
    {
      assert es'[a] == es[a];
      if b < |es| {
        assert es'[b] == es[b];
        assert Apart(es, a, b);
      }
    }
  }

  /** In a list that ends with a run of distinct ids and holds no None, the scan between
      two members of that run finds exactly those two members. */
  lemma ScanInDistinct(prefix: seq<Element?>, run: seq<Element?>, i: nat, j: nat)
    requires null !in prefix && null !in run && DistinctIds(run)
    requires i < |run| && j < |run| && i != j
    ensures Scan(prefix + run, run[i].base.id, run[j].base.id) == Endpoints(run[i], run[j])
    ensures Targets(prefix + run, run[i].base.id, run[j].base.id) == {run[i], run[j]}
  {
    var es := prefix + run;
    forall m | 0 <= m < |run| ensures es[|prefix| + m] == run[m] && run[m] != null { }
    forall m | 0 <= m < |run|
      ensures LastWithId(es, run[m].base.id) == run[m]
    {
      forall b | |prefix| + m < b < |es| && es[b] != null
        ensures es[b].base.id != es[|prefix| + m].base.id
      {
        assert es[b] == run[b - |prefix|];
        assert Apart(run, m, b - |prefix|);
      }
      LastWithIdAt(es, |prefix| + m);
    }
    if i < j {
      assert Apart(run, i, j);
    } else {
      assert Apart(run, j, i);
    }
    ScanSpec(es, run[i].base.id, run[j].base.id);
  }
}
