/**
 The user mappings that DQ_MAP and X_MAP install in the one shared address space, and the per-domain
 ledger by which a dead domain's mappings are taken down.
 */
module Ledger {
  import opened Machine

  const MAX_DOMAINS: nat := 6
  const MAX_MAPS_PER_DOMAIN: nat := 8
  const DQ_BASE: nat := 0x100_0000
  const EXTENT_MAP_BASE: nat := 0x110_0000

  const DQ_PAGES: seq<nat> := [DQ_BASE, DQ_BASE + 0x1000, DQ_BASE + 0x2000, DQ_BASE + 0x3000, DQ_BASE + 0x4000]

  /** The six pages that are ever mapped this way. */
  const WINDOW: set<nat> :=
    {DQ_BASE, DQ_BASE + 0x1000, DQ_BASE + 0x2000, DQ_BASE + 0x3000, DQ_BASE + 0x4000, EXTENT_MAP_BASE}

  type Ledgers = s: seq<seq<nat>> | |s| == 6 witness seq(6, _ => [])

  /** `loaded` and `seeded` are the extents with a data frame and the seeded device queues. */
  datatype Maps = Maps(mapped: set<nat>, ledgers: Ledgers, loaded: set<nat>, seeded: set<nat>)

  /** Silently drops the record when the ledger is full. */
  function Recorded(ledgers: Ledgers, d: nat, va: nat): Ledgers
    requires d < 6
  {
    if |ledgers[d]| < MAX_MAPS_PER_DOMAIN then ledgers[d := ledgers[d] + [va]] else ledgers
  }

  /** Mapping fails if the page is mapped already or an intermediate table cannot be allocated. */
  function MapPage(m: Maps, d: nat, va: nat, noTable: set<nat>): Option<Maps>
    requires d < 6
  {
    if va in m.mapped || va in noTable then None
    else Some(m.(mapped := m.mapped + {va}, ledgers := Recorded(m.ledgers, d, va)))
  }

  /** Pages in order until one fails; the earlier ones stay mapped. */
  function MapPages(m: Maps, d: nat, vas: seq<nat>, noTable: set<nat>): (Maps, bool)
    requires d < 6
    decreases |vas|
  {
    if vas == [] then (m, true)
    else match MapPage(m, d, vas[0], noTable)
      case None => (m, false)
      case Some(m') => MapPages(m', d, vas[1..], noTable)
  }

  function Elements(s: seq<nat>): set<nat> {
    set va | va in s
  }

  /** Unmaps every page in the domain's ledger and empties it. */
  function TornDown(m: Maps, d: nat): Maps
    requires d < 6
  {
    m.(mapped := m.mapped - Elements(m.ledgers[d]), ledgers := m.ledgers[d := []])
  }

  ghost predicate NoRepeats(s: seq<nat>) {
    forall i, j :: 0 <= i < j < |s| ==> s[i] != s[j]
  }

  /** The mapped window pages are the disjoint union of the ledgers. */
  ghost predicate Complete(m: Maps) {
    && m.mapped <= WINDOW
    && (forall d :: 0 <= d < 6 ==> NoRepeats(m.ledgers[d]))
    && (forall va :: va in m.mapped ==> exists d :: 0 <= d < 6 && va in m.ledgers[d])
    && (forall d, va :: 0 <= d < 6 && va in m.ledgers[d] ==> va in m.mapped)
    && (forall d, e, va :: 0 <= d < e < 6 && va in m.ledgers[d] ==> va !in m.ledgers[e])
  }

  lemma {:induction false} NoRepeatsBound(s: seq<nat>, all: set<nat>)
    requires NoRepeats(s) && Elements(s) <= all
    ensures |s| <= |all|
    decreases |s|
  {
    if s != [] {
      var last, rest := s[|s| - 1], s[..|s| - 1];
      assert s == rest + [last];
      assert forall va :: va in rest ==> va in s && va != last;
      assert last in s && last in all;
      NoRepeatsBound(rest, all - {last});
    }
  }

  lemma WindowSize()
    ensures |WINDOW| == 6
  {
  }

  /** No ledger ever holds more than six entries, so the silent drop never happens. */
  lemma LedgerNeverFull(m: Maps, d: nat)
    requires Complete(m) && d < 6
    ensures |m.ledgers[d]| <= 6 < MAX_MAPS_PER_DOMAIN
  {
    WindowSize();
    NoRepeatsBound(m.ledgers[d], WINDOW);
  }

  lemma MapPageKeepsComplete(m: Maps, d: nat, va: nat, noTable: set<nat>)
    requires Complete(m) && d < 6 && va in WINDOW
    requires MapPage(m, d, va, noTable).Some?
    ensures Complete(MapPage(m, d, va, noTable).value)
  {
    LedgerNeverFull(m, d);
    var m' := MapPage(m, d, va, noTable).value;
    assert m'.ledgers[d] == m.ledgers[d] + [va];
    assert va in m'.ledgers[d];
    assert forall x, e :: 0 <= e < 6 && x in m.ledgers[e] ==> x in m'.ledgers[e];
    assert forall x, e :: 0 <= e < 6 && x in m'.ledgers[e] ==> x in m.ledgers[e] || (e == d && x == va);
  }

  /** A mapping call keeps the ledgers complete, also when it fails half way. */
  lemma {:induction false} MapPagesKeepsComplete(m: Maps, d: nat, vas: seq<nat>, noTable: set<nat>)
    requires Complete(m) && d < 6 && Elements(vas) <= WINDOW
    ensures Complete(MapPages(m, d, vas, noTable).0)
    decreases |vas|
  {
    if vas != [] {
      assert vas[0] in Elements(vas);
      if MapPage(m, d, vas[0], noTable).Some? {
        MapPageKeepsComplete(m, d, vas[0], noTable);
        assert Elements(vas[1..]) <= Elements(vas);
        MapPagesKeepsComplete(MapPage(m, d, vas[0], noTable).value, d, vas[1..], noTable);
      }
    }
  }

  /** What mapping the first `n` pages of `vas` and no more leaves. */
  ghost predicate MappedUpTo(m: Maps, d: nat, vas: seq<nat>, noTable: set<nat>, n: nat, m': Maps)
    requires d < 6
  {
    && n <= |vas|
    && (forall i :: 0 <= i < n ==> vas[i] !in m.mapped && vas[i] !in noTable)
    && (n < |vas| ==> vas[n] in m.mapped || vas[n] in noTable)
    && m' == m.(mapped := m.mapped + Elements(vas[..n]), ledgers := m.ledgers[d := m.ledgers[d] + vas[..n]])
  }

  /**
   A mapping call maps the pages before the first that is mapped already or has no table, records each
   of them in the caller's ledger, and succeeds if there is no such page.
   */
  lemma {:induction false} MapsUpToFirstFailure(m: Maps, d: nat, vas: seq<nat>, noTable: set<nat>) returns (n: nat)
    requires Complete(m) && d < 6 && Elements(vas) <= WINDOW && NoRepeats(vas)
    ensures var r := MapPages(m, d, vas, noTable);
            MappedUpTo(m, d, vas, noTable, n, r.0) && (r.1 <==> n == |vas|)
    decreases |vas|
  {
    n := 0;
    assert Elements(vas[..0]) == {} && m.ledgers[d] + vas[..0] == m.ledgers[d];
    if vas != [] && MapPage(m, d, vas[0], noTable).Some? {
      assert vas[0] in Elements(vas) && Elements(vas[1..]) <= Elements(vas);
      LedgerNeverFull(m, d);
      MapPageKeepsComplete(m, d, vas[0], noTable);
      var m1 := MapPage(m, d, vas[0], noTable).value;
      var j := MapsUpToFirstFailure(m1, d, vas[1..], noTable);
      n := j + 1;
      FirstThenRest(m, d, vas, noTable, m1, j, MapPages(m, d, vas, noTable).0);
    }
  }

  lemma FirstThenRest(m: Maps, d: nat, vas: seq<nat>, noTable: set<nat>, m1: Maps, j: nat, m': Maps)
    requires d < 6 && vas != [] && NoRepeats(vas) && MapPage(m, d, vas[0], noTable) == Some(m1)
    requires |m.ledgers[d]| < MAX_MAPS_PER_DOMAIN && MappedUpTo(m1, d, vas[1..], noTable, j, m')
    ensures MappedUpTo(m, d, vas, noTable, j + 1, m')
  {
    assert vas[..j + 1] == [vas[0]] + vas[1..][..j];
    assert Elements(vas[..j + 1]) == {vas[0]} + Elements(vas[1..][..j]);
    assert m.ledgers[d] + vas[..j + 1] == (m.ledgers[d] + [vas[0]]) + vas[1..][..j];
    forall i | 0 <= i < j + 1 ensures vas[i] !in m.mapped && vas[i] !in noTable {
      if i > 0 { assert vas[i] == vas[1..][i - 1]; }
    }
    if j + 1 < |vas| { assert vas[1..][j] == vas[j + 1] != vas[0]; }
  }

  /** Taking a domain down keeps the other ledgers and leaves none of its pages mapped. */
  lemma TearDownKeepsComplete(m: Maps, d: nat)
    requires Complete(m) && d < 6
    ensures Complete(TornDown(m, d))
    ensures forall va :: va in m.ledgers[d] ==> va !in TornDown(m, d).mapped
    ensures forall e :: 0 <= e < 6 && e != d ==> TornDown(m, d).ledgers[e] == m.ledgers[e]
                                                 && Elements(m.ledgers[e]) <= TornDown(m, d).mapped
  {
    var m' := TornDown(m, d);
    forall e, va | 0 <= e < 6 && e != d && va in m.ledgers[e]
      ensures va in m'.mapped
    {
    }
    forall va | va in m'.mapped
      ensures exists e :: 0 <= e < 6 && va in m'.ledgers[e]
    {
      var e :| 0 <= e < 6 && va in m.ledgers[e];
      assert va in m'.ledgers[e];
    }
  }
}
