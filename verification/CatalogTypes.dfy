/**
 The values every part of the catalog model shares: rows, ledger events, and a
 few facts about sequences without duplicates.
 */
module CatalogTypes {
  import opened Wrappers

  /** Milliseconds on the service's clock. */
  type Time = int

  datatype Key = Key(provider: string, model: string)

  datatype Status = Active | Missing | Excluded | Retired

  datatype Exclusion =
    | Paid | NotProvenFree | NotServed
    | PlanRequired | ProviderUnsupported | ConsentRequired

  /** The fields whose movement the engine reports. */
  datatype Field =
    | ContextTokens | OutputTokens | CostIn | CostOut
    | Tools | Reasoning | Structured | Attachment | InputModalities

  /** A published value, standing for the exact text the engine compares. */
  datatype Value = Number(n: real) | Flag(b: bool) | Modalities(names: seq<string>)

  /** What one row of `models` recorded as the feed's last answer. */
  datatype Cell = Null | Text(v: Value) | Foreign

  datatype Feed =
    | NoSnapshot
    | Unreadable
    | Recorded(cells: map<Field, Cell>)

  datatype Row = Row(
    status: Status,
    missCount: nat,
    missingSince: Option<Time>,
    firstSeen: Time,
    lastSeen: Time,
    exclusion: Option<Exclusion>,
    feed: Feed)

  /** The rows of one provider, by model id. */
  type Table = map<string, Row>

  datatype EventKind =
    | Added
    | Readded(origin: Status)
    | Removed(was: Status, misses: nat)
    | WentMissing(was: Status, misses: nat)
    | Changed(field: Field, from: Option<Value>, to: Value)
    | Withheld(was: Status, why: Exclusion)
    | ResolutionResolved
    | ScoreChanged

  datatype Event = Event(provider: string, model: string, kind: EventKind, at: Time)

  datatype Outcome = Ok | Failed | Quarantined

  datatype Run = Run(
    provider: string,
    startedAt: Time,
    finishedAt: Time,
    outcome: Outcome,
    rosterCount: nat,
    added: nat,
    removed: nat,
    changed: nat)

  function TableOf(tables: map<string, Table>, provider: string): Table {
    if provider in tables then tables[provider] else map[]
  }

  function LiveIds(t: Table): set<string> {
    set id | id in t && t[id].status != Retired
  }

  function Elems<T>(s: seq<T>): set<T> {
    set x | x in s
  }

  ghost predicate Distinct<T>(s: seq<T>) {
    forall i, j :: 0 <= i < j < |s| ==> s[i] != s[j]
  }

  /** `scan` lists each member of `ids` once: the order a query returned them in. */
  ghost predicate Enumerates<T>(scan: seq<T>, ids: set<T>) {
    Distinct(scan) && Elems(scan) == ids
  }

  lemma {:induction false} EnumerationSize<T>(scan: seq<T>, ids: set<T>)
    requires Enumerates(scan, ids)
    ensures |scan| == |ids|
  {
    if scan == [] {
      assert ids == {};
    } else {
      var last := scan[|scan| - 1];
      var rest := scan[..|scan| - 1];
      assert scan == rest + [last];
      assert Elems(rest) == ids - {last};
      EnumerationSize(rest, ids - {last});
    }
  }

  function Filter<T(==)>(s: seq<T>, keep: set<T>): (r: seq<T>) {
    if s == [] then []
    else Filter(s[..|s| - 1], keep) + (if s[|s| - 1] in keep then [s[|s| - 1]] else [])
  }

  lemma {:induction false} FilterEnumerates<T>(s: seq<T>, keep: set<T>)
    requires Distinct(s)
    ensures Enumerates(Filter(s, keep), Elems(s) * keep)
  {
    if s != [] {
      var last := s[|s| - 1];
      var rest := s[..|s| - 1];
      FilterEnumerates(rest, keep);
      assert s == rest + [last];
      assert Elems(s) == Elems(rest) + {last};
      assert last !in rest;
      var f := Filter(rest, keep);
      assert forall x :: x in f ==> x in Elems(f);
      assert Elems(f + [last]) == Elems(f) + {last};
    }
  }
}
