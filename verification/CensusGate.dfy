/**
 The reconciliation gate of `scripts/pytokio_removal_census.py`: `collapse`, `validate_rows`,
 `reconcile`, and what a clean `check` means.
 */
module CensusGate {
  import opened Options

  /** (path, symbol, operation) */
  type Locator = (string, string, string)

  datatype Hit = Hit(path: string, symbol: string, operation: string, line: int, members: seq<string>,
      capture: string) {
    function Loc(): Locator { (path, symbol, operation) }
  }

  /** A manifest row; `Incomplete` lacks a required field. */
  datatype Row =
    | Incomplete(rowId: Option<string>)
    | Row(id: string, path: string, symbol: string, operation: string, state: string, members: Option<seq<string>>,
        fields: map<string, string>)
  {
    function Loc(): Locator
      requires Row?
    {
      (path, symbol, operation)
    }

    /** Rows that `reconcile` matches: everything but a tombstone. */
    predicate Active() {
      Row? && state != "migrated" && state != "removed_upstream"
    }
  }

  datatype Error =
    | MissingId(position: nat)
    | MissingFields(id: string)
    | DuplicateId(id: string)
    | InvalidState(id: string)
    | DuplicateLocator(id: string, claimedBy: string)
    | MissingMembers(id: string)
    | NoHit(id: string)
    | ManyHits(id: string, count: nat)
    | MembersChanged(id: string)
    | MembersNotPinned(id: string)
    | UnknownHit(loc: Locator)
    | Other(text: string)

  // ---------------------------------------------------------------------------------------------
  // collapse
  // ---------------------------------------------------------------------------------------------

  datatype Config = Config(captured: set<string>, perFile: set<string>) {
    predicate Reference(h: Hit) {
      h.operation in captured || h.operation in perFile
    }

    predicate Uncaptured(h: Hit) {
      h.operation in captured && h.capture == ""
    }

    /** The surface a reference-style hit stands for. */
    function Surface(h: Hit): Locator {
      (h.path, if h.operation in captured then h.capture else "<file>", h.operation)
    }

    function Normal(h: Hit): Hit {
      Hit(h.path, Surface(h).1, h.operation, h.line, h.members, "")
    }
  }

  ghost function Surfaces(c: Config, hits: seq<Hit>): set<Locator> {
    set i | 0 <= i < |hits| && c.Reference(hits[i]) :: c.Surface(hits[i])
  }

  ghost predicate KnownSurface(c: Config, hits: seq<Hit>, s: Locator) {
    s in Surfaces(c, hits)
  }

  lemma SurfacesNext(c: Config, hits: seq<Hit>, h: Hit)
    ensures Surfaces(c, hits + [h]) == Surfaces(c, hits) + if c.Reference(h) then {c.Surface(h)} else {}
  {
    var hits' := hits + [h];
    assert hits'[|hits|] == h;
    assert forall i | 0 <= i < |hits| :: hits'[i] == hits[i];
  }

  // What is kept, from the fields of the hits.

  /** Two hits of one capture operation with one capture, or of one operation collapsed per file, in one file. */
  predicate SameGroup(c: Config, h: Hit, k: Hit) {
    && h.path == k.path && h.operation == k.operation
    && (if h.operation in c.captured then h.capture == k.capture else h.operation in c.perFile)
  }

  /** The hit is reported: it is the first of its group, or in none. */
  predicate Reports(c: Config, hits: seq<Hit>, k: nat)
    requires k < |hits|
  {
    forall i | 0 <= i < k :: !SameGroup(c, hits[i], hits[k])
  }

  /** How a hit is reported. */
  predicate ReportedAs(c: Config, h: Hit, x: Hit) {
    if h.operation in c.captured then x == Hit(h.path, h.capture, h.operation, h.line, h.members, "")
    else if h.operation in c.perFile then x == Hit(h.path, "<file>", h.operation, h.line, h.members, "")
    else x == h
  }

  /** `out` reports, in their order, exactly the hits at `from`: the first of every group and all that are in none. */
  ghost predicate CollapsesFrom(c: Config, hits: seq<Hit>, out: seq<Hit>, from: seq<nat>) {
    && |from| == |out|
    && (forall i, j | 0 <= i < j < |from| :: from[i] < from[j])
    && (forall k: nat :: k in from <==> k < |hits| && Reports(c, hits, k))
    && (forall j | 0 <= j < |out| :: from[j] < |hits| && ReportedAs(c, hits[from[j]], out[j]))
  }

  ghost predicate CollapsesTo(c: Config, hits: seq<Hit>, out: seq<Hit>) {
    exists from :: CollapsesFrom(c, hits, out, from)
  }

  lemma ReportsNext(c: Config, hits: seq<Hit>, h: Hit)
    ensures forall k | 0 <= k < |hits| :: Reports(c, hits + [h], k) <==> Reports(c, hits, k)
    ensures Reports(c, hits + [h], |hits|) <==> !c.Reference(h) || !KnownSurface(c, hits, c.Surface(h))
  {
    var hits' := hits + [h];
    forall k | 0 <= k < |hits| ensures Reports(c, hits', k) <==> Reports(c, hits, k) {
      assert forall i | 0 <= i <= k :: hits'[i] == hits[i];
    }
    assert forall i | 0 <= i < |hits| :: hits'[i] == hits[i];
    forall i | 0 <= i < |hits|
      ensures SameGroup(c, hits[i], h) <==> c.Reference(h) && c.Reference(hits[i]) && c.Surface(hits[i]) == c.Surface(h)
    {
    }
  }

  lemma CollapsesNext(c: Config, hits: seq<Hit>, h: Hit, out: seq<Hit>, from: seq<nat>, x: Hit)
    requires CollapsesFrom(c, hits, out, from)
    ensures !Reports(c, hits + [h], |hits|) ==> CollapsesFrom(c, hits + [h], out, from)
    ensures Reports(c, hits + [h], |hits|) && ReportedAs(c, h, x) ==>
              CollapsesFrom(c, hits + [h], out + [x], from + [|hits|])
  {
    ReportsNext(c, hits, h);
    var hits' := hits + [h];
    assert forall j | 0 <= j < |from| :: from[j] in from;
    assert forall j | 0 <= j < |from| :: hits'[from[j]] == hits[from[j]];
  }

  /** `hits[k]` is the first of the operation in the file, with the capture where one is given. */
  ghost predicate FirstHit(hits: seq<Hit>, k: nat, path: string, operation: string, capture: Option<string>) {
    && k < |hits| && IsHit(hits[k], path, operation, capture)
    && forall i | 0 <= i < k :: !IsHit(hits[i], path, operation, capture)
  }

  predicate IsHit(h: Hit, path: string, operation: string, capture: Option<string>) {
    h.path == path && h.operation == operation && (capture.Some? ==> h.capture == capture.value)
  }

  /** At most one hit is left at the locator: the first of those it stands for, and none only if it stands for none. */
  ghost predicate OneAt(hits: seq<Hit>, out: seq<Hit>, loc: Locator, capture: Option<string>) {
    && (forall i, j | 0 <= i < j < |out| && out[i].Loc() == loc :: out[j].Loc() != loc)
    && (forall k: nat | FirstHit(hits, k, loc.0, loc.2, capture) ::
          Hit(loc.0, loc.1, loc.2, hits[k].line, hits[k].members, "") in out)
    && (forall j | 0 <= j < |out| && out[j].Loc() == loc ::
          exists i | 0 <= i < |hits| :: IsHit(hits[i], loc.0, loc.2, capture))
  }

  /** What a locator of a collapsed operation stands for: all hits of the file, or those with the captured symbol. */
  predicate StandsFor(c: Config, loc: Locator, capture: Option<string>) {
    if loc.2 in c.captured then capture == Some(loc.1) else loc.2 in c.perFile && loc.1 == "<file>" && capture == None
  }

  lemma ReportedOnce(c: Config, hits: seq<Hit>, out: seq<Hit>, from: seq<nat>, loc: Locator, i: nat, j: nat)
    requires CollapsesFrom(c, hits, out, from) && (loc.2 in c.captured || loc.2 in c.perFile)
    requires i < j < |out| && out[i].Loc() == loc
    ensures out[j].Loc() != loc
  {
    assert from[j] in from;
    assert Reports(c, hits, from[j]);
    assert !SameGroup(c, hits[from[i]], hits[from[j]]);
  }

  lemma FirstIsReported(c: Config, hits: seq<Hit>, out: seq<Hit>, from: seq<nat>, loc: Locator,
                        capture: Option<string>, k: nat)
    requires CollapsesFrom(c, hits, out, from) && StandsFor(c, loc, capture)
    requires FirstHit(hits, k, loc.0, loc.2, capture)
    ensures Hit(loc.0, loc.1, loc.2, hits[k].line, hits[k].members, "") in out
  {
    assert Reports(c, hits, k);
    var j :| 0 <= j < |from| && from[j] == k;
    assert out[j] in out;
  }

  lemma ReportedIsHit(c: Config, hits: seq<Hit>, out: seq<Hit>, from: seq<nat>, loc: Locator,
                      capture: Option<string>, j: nat)
    requires CollapsesFrom(c, hits, out, from) && StandsFor(c, loc, capture) && j < |out| && out[j].Loc() == loc
    ensures from[j] < |hits| && IsHit(hits[from[j]], loc.0, loc.2, capture)
  {
  }

  /** One hit is left for each file, or for each captured symbol of a file, that has any; no other symbol is left. */
  lemma OnePerSurface(c: Config, hits: seq<Hit>, out: seq<Hit>, loc: Locator, capture: Option<string>)
    requires CollapsesTo(c, hits, out) && StandsFor(c, loc, capture)
    ensures OneAt(hits, out, loc, capture)
    ensures loc.2 !in c.captured ==> forall j | 0 <= j < |out| && out[j].operation == loc.2 :: out[j].symbol == "<file>"
  {
    var from :| CollapsesFrom(c, hits, out, from);
    forall i, j | 0 <= i < j < |out| && out[i].Loc() == loc ensures out[j].Loc() != loc {
      ReportedOnce(c, hits, out, from, loc, i, j);
    }
    forall k: nat | FirstHit(hits, k, loc.0, loc.2, capture)
      ensures Hit(loc.0, loc.1, loc.2, hits[k].line, hits[k].members, "") in out
    {
      FirstIsReported(c, hits, out, from, loc, capture, k);
    }
    forall j | 0 <= j < |out| && out[j].Loc() == loc
      ensures exists i | 0 <= i < |hits| :: IsHit(hits[i], loc.0, loc.2, capture)
    {
      ReportedIsHit(c, hits, out, from, loc, capture, j);
    }
  }

  predicate FirstUncaptured(c: Config, hits: seq<Hit>, k: nat)
    requires k < |hits|
  {
    c.Uncaptured(hits[k]) && forall i | 0 <= i < k :: !c.Uncaptured(hits[i])
  }

  method Collapse(hits: seq<Hit>, c: Config) returns (r: Result<seq<Hit>, int>)
    ensures r.Err? <==> exists k | 0 <= k < |hits| :: hits[k].operation in c.captured && hits[k].capture == ""
    ensures r.Err? ==> exists k | 0 <= k < |hits| :: FirstUncaptured(c, hits, k) && r.error == hits[k].line
    ensures r.Ok? ==> CollapsesTo(c, hits, r.value)
  {
    var out: seq<Hit>, seen: set<Locator> := [], {};
    ghost var from: seq<nat> := [];
    for index := 0 to |hits|
      invariant forall k | 0 <= k < index :: !c.Uncaptured(hits[k])
      invariant seen == Surfaces(c, hits[..index]) && CollapsesFrom(c, hits[..index], out, from)
    {
      var hit := hits[index];
      assert hits[..index + 1] == hits[..index] + [hit];
      SurfacesNext(c, hits[..index], hit);
      ReportsNext(c, hits[..index], hit);
      CollapsesNext(c, hits[..index], hit, out, from, if c.Reference(hit) then c.Normal(hit) else hit);
      if c.Uncaptured(hit) {
        return Err(hit.line);
      }
      if !c.Reference(hit) {
        out, from := out + [hit], from + [index];
      } else if c.Surface(hit) !in seen {
        seen := seen + {c.Surface(hit)};
        out, from := out + [c.Normal(hit)], from + [index];
      }
    }
    assert hits[..|hits|] == hits;
    r := Ok(out);
  }

  // ---------------------------------------------------------------------------------------------
  // validate_rows
  // ---------------------------------------------------------------------------------------------

  /**
   What rows are validated against. `fieldErrors` are the complaints about the fields of a single row: its
   category, provenance, multiplicity, oracle and behavior fields.
   */
  datatype Schema = Schema(importOperations: set<string>, fieldErrors: Row -> seq<string>)

  predicate ValidState(state: string) {
    state == "legacy" || state == "migrated" || state == "removed_upstream"
  }

  predicate PinsMembers(r: Row, schema: Schema)
    requires r.Row?
  {
    r.operation in schema.importOperations ==> r.members.Some? && r.members.value != []
  }

  /** A row is complete, its state is known, an import row lists members, and its other fields are in order. */
  predicate RowValid(r: Row, schema: Schema) {
    && r.Row? && r.state in {"legacy", "migrated", "removed_upstream"}
    && (r.operation in schema.importOperations ==> r.members.Some? && |r.members.value| > 0)
    && schema.fieldErrors(r) == []
  }

  /** Every row is complete and valid by itself, and ids and locators are unique. */
  ghost predicate RowsValid(rows: seq<Row>, schema: Schema) {
    && (forall i | 0 <= i < |rows| :: RowValid(rows[i], schema))
    && (forall i, j | 0 <= i < j < |rows| && rows[i].Row? && rows[j].Row? ::
          rows[i].id != rows[j].id && rows[i].Loc() != rows[j].Loc())
  }

  ghost predicate HasId(rows: seq<Row>, n: nat, x: string)
    requires n <= |rows|
  {
    exists i | 0 <= i < n :: rows[i].Row? && rows[i].id == x
  }

  /** The last complete row before `n` that has the locator. */
  ghost predicate LastWithLoc(rows: seq<Row>, n: nat, loc: Locator, i: nat)
    requires n <= |rows|
  {
    && i < n && rows[i].Row? && rows[i].Loc() == loc
    && forall j | i < j < n && rows[j].Row? :: rows[j].Loc() != loc
  }

  ghost predicate ClaimedBy(rows: seq<Row>, n: nat, loc: Locator, id: string)
    requires n <= |rows|
  {
    exists i | 0 <= i < n :: LastWithLoc(rows, n, loc, i) && rows[i].id == id
  }

  lemma {:induction false} LastExists(rows: seq<Row>, n: nat, loc: Locator, i: nat) returns (k: nat)
    requires i < n <= |rows| && rows[i].Row? && rows[i].Loc() == loc
    ensures LastWithLoc(rows, n, loc, k)
  {
    if rows[n - 1].Row? && rows[n - 1].Loc() == loc {
      k := n - 1;
    } else {
      k := LastExists(rows, n - 1, loc, i);
    }
  }

  /** What there is to say against row `n`. */
  ghost predicate Faulty(rows: seq<Row>, n: nat, schema: Schema, e: Error)
    requires n < |rows|
  {
    var row := rows[n];
    if row.Incomplete? then e == if row.rowId.None? then MissingId(n) else MissingFields(row.rowId.value)
    else
      || (e == DuplicateId(row.id) && HasId(rows, n, row.id))
      || (e == InvalidState(row.id) && row.state !in {"legacy", "migrated", "removed_upstream"})
      || (e.DuplicateLocator? && e.id == row.id && ClaimedBy(rows, n, row.Loc(), e.claimedBy))
      || (e == MissingMembers(row.id) && row.operation in schema.importOperations
          && (row.members.None? || row.members.value == []))
      || (e.Other? && e.text in schema.fieldErrors(row))
  }

  /** `ids` and `locs` record the rows before `n`: their ids, and for each locator the id of the last row with it. */
  ghost predicate Records(rows: seq<Row>, n: nat, ids: set<string>, locs: map<Locator, string>)
    requires n <= |rows|
  {
    && (forall x :: x in ids <==> HasId(rows, n, x))
    && (forall x, id :: x in locs && locs[x] == id <==> ClaimedBy(rows, n, x, id))
  }

  lemma ClaimedByNext(rows: seq<Row>, n: nat, x: Locator, id: string)
    requires n < |rows|
    ensures ClaimedBy(rows, n + 1, x, id) <==>
            if rows[n].Row? && rows[n].Loc() == x then id == rows[n].id else ClaimedBy(rows, n, x, id)
  {
    var here := rows[n].Row? && rows[n].Loc() == x;
    assert here ==> LastWithLoc(rows, n + 1, x, n);
    if !here && ClaimedBy(rows, n, x, id) {
      var i :| 0 <= i < n && LastWithLoc(rows, n, x, i) && rows[i].id == id;
      assert LastWithLoc(rows, n + 1, x, i);
    }
    if !here && ClaimedBy(rows, n + 1, x, id) {
      var i :| 0 <= i < n + 1 && LastWithLoc(rows, n + 1, x, i) && rows[i].id == id;
      assert LastWithLoc(rows, n, x, i);
    }
  }

  lemma HasIdNext(rows: seq<Row>, n: nat, x: string)
    requires n < |rows|
    ensures HasId(rows, n + 1, x) <==> HasId(rows, n, x) || (rows[n].Row? && rows[n].id == x)
  {
  }

  lemma RecordsNext(rows: seq<Row>, n: nat, ids: set<string>, locs: map<Locator, string>)
    requires n < |rows| && Records(rows, n, ids, locs)
    ensures rows[n].Incomplete? ==> Records(rows, n + 1, ids, locs)
    ensures rows[n].Row? ==> Records(rows, n + 1, ids + {rows[n].id}, locs[rows[n].Loc() := rows[n].id])
  {
    var row := rows[n];
    var ids' := if row.Row? then ids + {row.id} else ids;
    var locs' := if row.Row? then locs[row.Loc() := row.id] else locs;
    var next := n + 1;
    forall x, id ensures x in locs' && locs'[x] == id <==> ClaimedBy(rows, next, x, id) {
      ClaimedByNext(rows, n, x, id);
      assert x in locs && locs[x] == id <==> ClaimedBy(rows, n, x, id);
    }
    forall x ensures x in ids' <==> HasId(rows, n + 1, x) { HasIdNext(rows, n, x); }
  }

  /** The complaints about one row. */
  method CheckRow(rows: seq<Row>, position: nat, schema: Schema, seen: set<string>, locators: map<Locator, string>)
    returns (errors: seq<Error>)
    requires position < |rows| && Records(rows, position, seen, locators)
    ensures forall e :: e in errors <==> Faulty(rows, position, schema, e)
  {
    var row := rows[position];
    if row.Incomplete? {
      return [if row.rowId.None? then MissingId(position) else MissingFields(row.rowId.value)];
    }
    errors := [];
    if row.id in seen { errors := errors + [DuplicateId(row.id)]; }
    if !ValidState(row.state) { errors := errors + [InvalidState(row.id)]; }
    if row.Loc() in locators { errors := errors + [DuplicateLocator(row.id, locators[row.Loc()])]; }
    if !PinsMembers(row, schema) { errors := errors + [MissingMembers(row.id)]; }
    var texts := schema.fieldErrors(row);
    var others := seq(|texts|, i requires 0 <= i < |texts| => Other(texts[i]));
    forall e ensures e in others <==> e.Other? && e.text in texts {
      if e.Other? && e.text in texts { var i :| 0 <= i < |texts| && texts[i] == e.text; assert others[i] == e; }
    }
    errors := errors + others;
  }

  /** No complaint about a row exactly when it is valid and repeats neither an id nor a locator. */
  lemma FaultlessIff(rows: seq<Row>, n: nat, schema: Schema)
    requires n < |rows|
    ensures (forall e :: !Faulty(rows, n, schema, e)) <==>
              && RowValid(rows[n], schema)
              && (forall i | 0 <= i < n && rows[i].Row? :: rows[i].id != rows[n].id && rows[i].Loc() != rows[n].Loc())
  {
    var row := rows[n];
    var texts := schema.fieldErrors(row);
    assert row.Row? && texts != [] ==> Faulty(rows, n, schema, Other(texts[0]));
    if forall e :: !Faulty(rows, n, schema, e) {
      assert !Faulty(rows, n, schema, if row.Incomplete? && row.rowId.Some? then MissingFields(row.rowId.value)
          else MissingId(n));
      assert !Faulty(rows, n, schema, DuplicateId(row.id)) && !Faulty(rows, n, schema, InvalidState(row.id));
      assert !Faulty(rows, n, schema, MissingMembers(row.id));
      forall i | 0 <= i < n && rows[i].Row? ensures rows[i].Loc() != row.Loc() {
        if rows[i].Loc() == row.Loc() {
          var k := LastExists(rows, n, row.Loc(), i);
          assert Faulty(rows, n, schema, DuplicateLocator(row.id, rows[k].id));
        }
      }
    }
  }

  ghost predicate SomeFault(rows: seq<Row>, n: nat, schema: Schema, e: Error)
    requires n <= |rows|
  {
    exists i | 0 <= i < n :: Faulty(rows, i, schema, e)
  }

  lemma SomeFaultNext(rows: seq<Row>, n: nat, schema: Schema)
    requires n < |rows|
    ensures forall e ::
              SomeFault(rows, n + 1, schema, e) <==> SomeFault(rows, n, schema, e) || Faulty(rows, n, schema, e)
  {
  }

  lemma NoFaultsNext(rows: seq<Row>, n: nat, schema: Schema, errors: seq<Error>, more: seq<Error>)
    requires n < |rows| && (errors == [] <==> RowsValid(rows[..n], schema))
    requires forall e :: e in more <==> Faulty(rows, n, schema, e)
    ensures errors + more == [] <==> RowsValid(rows[..n + 1], schema)
  {
    FaultlessIff(rows, n, schema);
    RowsValidNext(rows, n, schema);
    assert more != [] ==> more[0] in more;
  }

  method ValidateRows(rows: seq<Row>, schema: Schema) returns (errors: seq<Error>)
    ensures errors == [] <==> RowsValid(rows, schema)
    ensures forall e :: e in errors <==> SomeFault(rows, |rows|, schema, e)
  {
    errors := [];
    var seen: set<string>, locators: map<Locator, string> := {}, map[];
    for position := 0 to |rows|
      invariant errors == [] <==> RowsValid(rows[..position], schema)
      invariant forall e :: e in errors <==> SomeFault(rows, position, schema, e)
      invariant Records(rows, position, seen, locators)
    {
      var row := rows[position];
      var more := CheckRow(rows, position, schema, seen, locators);
      NoFaultsNext(rows, position, schema, errors, more);
      SomeFaultNext(rows, position, schema);
      RecordsNext(rows, position, seen, locators);
      errors := errors + more;
      if row.Row? {
        seen, locators := seen + {row.id}, locators[row.Loc() := row.id];
      }
    }
    assert rows[..|rows|] == rows;
  }

  lemma RowsValidNext(rows: seq<Row>, n: nat, schema: Schema)
    requires n < |rows|
    ensures RowsValid(rows[..n + 1], schema) <==>
              && RowsValid(rows[..n], schema)
              && RowValid(rows[n], schema)
              && (forall i | 0 <= i < n && rows[i].Row? :: rows[i].id != rows[n].id && rows[i].Loc() != rows[n].Loc())
  {
    var a, b := rows[..n], rows[..n + 1];
    assert b[n] == rows[n] && forall i | 0 <= i < n :: a[i] == rows[i] && b[i] == rows[i];
    if RowsValid(b, schema) {
      forall i | 0 <= i < n && rows[i].Row?
        ensures rows[i].id != rows[n].id && rows[i].Loc() != rows[n].Loc()
      {
        assert b[i] == rows[i];
      }
      forall i | 0 <= i < n ensures RowValid(a[i], schema) { assert b[i] == a[i]; }
      forall i, j | 0 <= i < j < n && a[i].Row? && a[j].Row? ensures a[i].id != a[j].id && a[i].Loc() != a[j].Loc() {
        assert b[i] == a[i] && b[j] == a[j];
      }
    }
  }

  // ---------------------------------------------------------------------------------------------
  // reconcile
  // ---------------------------------------------------------------------------------------------

  /** The hits at a locator, in order: an entry of `by_locator`. */
  function FoundAt(hits: seq<Hit>, loc: Locator): seq<Hit> {
    if hits == [] then []
    else FoundAt(hits[..|hits| - 1], loc) + (if hits[|hits| - 1].Loc() == loc then [hits[|hits| - 1]] else [])
  }

  /** The distinct members that the hits import. */
  function MembersOf(found: seq<Hit>): set<string> {
    set i, m | 0 <= i < |found| && m in found[i].members :: m
  }

  /** Comparing two sorted lists is comparing what they hold, repetitions included. */
  predicate SameMembers(row: Row, actual: set<string>)
    requires row.Row?
  {
    match row.members
    case Some(ms) => multiset(ms) == multiset(actual)
    case None => actual == {}
  }

  predicate RowReconciled(row: Row, found: seq<Hit>)
    requires row.Row?
  {
    |found| == 1 && SameMembers(row, MembersOf(found))
  }

  /** Every active row has one hit with its members, and every hit has an active row. */
  ghost predicate Reconciled(hits: seq<Hit>, rows: seq<Row>) {
    && (forall i | 0 <= i < |rows| && rows[i].Active() :: RowReconciled(rows[i], FoundAt(hits, rows[i].Loc())))
    && (forall k | 0 <= k < |hits| :: Claims(rows, hits[k].Loc()))
  }

  ghost predicate Claims(rows: seq<Row>, loc: Locator) {
    exists i | 0 <= i < |rows| :: rows[i].Active() && rows[i].Loc() == loc
  }

  lemma {:induction false} FoundAtMembership(hits: seq<Hit>, loc: Locator)
    ensures FoundAt(hits, loc) == [] <==> forall k | 0 <= k < |hits| :: hits[k].Loc() != loc
  {
    if hits != [] {
      FoundAtMembership(hits[..|hits| - 1], loc);
      assert hits[|hits| - 1].Loc() == loc ==> FoundAt(hits, loc) != [];
    }
  }

  /** `by_locator.get(locator, [])`. */
  function HitsAt(byLocator: map<Locator, seq<Hit>>, loc: Locator): seq<Hit> {
    if loc in byLocator then byLocator[loc] else []
  }

  method GroupByLocator(hits: seq<Hit>) returns (byLocator: map<Locator, seq<Hit>>)
    ensures forall loc :: HitsAt(byLocator, loc) == FoundAt(hits, loc)
    ensures forall loc :: loc in byLocator <==> Found(hits, loc)
  {
    byLocator := map[];
    for index := 0 to |hits|
      invariant forall loc :: HitsAt(byLocator, loc) == FoundAt(hits[..index], loc)
      invariant forall loc | loc in byLocator :: byLocator[loc] != []
    {
      var loc := hits[index].Loc();
      assert hits[..index + 1][..index] == hits[..index];
      byLocator := byLocator[loc := HitsAt(byLocator, loc) + [hits[index]]];
    }
    assert hits[..|hits|] == hits;
    forall loc
      ensures loc in byLocator <==> Found(hits, loc)
    {
      FoundAtMembership(hits, loc);
    }
  }

  /** What there is to say against an active row, given the hits at its locator. */
  predicate Unmatched(row: Row, found: seq<Hit>, e: Error)
    requires row.Row?
  {
    match e
    case NoHit(id) => id == row.id && |found| == 0
    case ManyHits(id, count) => id == row.id && |found| == count && count > 1
    case MembersChanged(id) =>
      id == row.id && found != [] && row.members.Some? && !SameMembers(row, MembersOf(found))
    case MembersNotPinned(id) => id == row.id && row.members.None? && !SameMembers(row, MembersOf(found))
    case _ => false
  }

  /** The errors of one active row. */
  method ReconcileRow(row: Row, found: seq<Hit>) returns (errors: seq<Error>)
    requires row.Row?
    ensures forall e :: e in errors <==> Unmatched(row, found, e)
  {
    errors := [];
    if found == [] {
      errors := errors + [NoHit(row.id)];
    } else if |found| != 1 {
      errors := errors + [ManyHits(row.id, |found|)];
    }
    var actual := MembersOf(found);
    if row.members.Some? {
      if found != [] && multiset(actual) != multiset(row.members.value) {
        errors := errors + [MembersChanged(row.id)];
      }
    } else if actual != {} {
      errors := errors + [MembersNotPinned(row.id)];
    }
  }

  /** The locators that the active rows claim. */
  ghost function Claimed(rows: seq<Row>): set<Locator> {
    set i | 0 <= i < |rows| && rows[i].Active() :: rows[i].Loc()
  }

  lemma ClaimedNext(rows: seq<Row>, row: Row)
    ensures Claimed(rows + [row]) == Claimed(rows) + if row.Active() then {row.Loc()} else {}
  {
    var rows' := rows + [row];
    assert rows'[|rows|] == row;
    assert forall i | 0 <= i < |rows| :: rows'[i] == rows[i];
  }

  ghost predicate SomeUnmatched(rows: seq<Row>, n: nat, hits: seq<Hit>, e: Error)
    requires n <= |rows|
  {
    exists i | 0 <= i < n :: rows[i].Active() && Unmatched(rows[i], FoundAt(hits, rows[i].Loc()), e)
  }

  lemma SomeUnmatchedNext(rows: seq<Row>, n: nat, hits: seq<Hit>)
    requires n < |rows|
    ensures forall e :: SomeUnmatched(rows, n + 1, hits, e) <==>
              SomeUnmatched(rows, n, hits, e)
              || (rows[n].Active() && Unmatched(rows[n], FoundAt(hits, rows[n].Loc()), e))
  {
  }

  /** The first loop: every active row against its hits. */
  method ReconcileRows(byLocator: map<Locator, seq<Hit>>, rows: seq<Row>, ghost hits: seq<Hit>)
    returns (errors: seq<Error>, claimed: set<Locator>)
    requires forall loc :: HitsAt(byLocator, loc) == FoundAt(hits, loc)
    ensures claimed == Claimed(rows)
    ensures forall e :: e in errors <==> SomeUnmatched(rows, |rows|, hits, e)
  {
    errors, claimed := [], {};
    for index := 0 to |rows|
      invariant claimed == Claimed(rows[..index])
      invariant forall e :: e in errors <==> SomeUnmatched(rows, index, hits, e)
    {
      var row := rows[index];
      assert rows[..index + 1] == rows[..index] + [row];
      ClaimedNext(rows[..index], row);
      SomeUnmatchedNext(rows, index, hits);
      if row.Active() {
        var rowErrors := ReconcileRow(row, HitsAt(byLocator, row.Loc()));
        errors := errors + rowErrors;
        claimed := claimed + {row.Loc()};
      }
    }
    assert rows[..|rows|] == rows;
  }

  /** The second loop: locators that no active row claims. */
  method UnknownHits(locators: set<Locator>, claimed: set<Locator>) returns (errors: seq<Error>)
    ensures forall e :: e in errors <==> e.UnknownHit? && e.loc in locators - claimed
  {
    errors := [];
    var todo := locators;
    while todo != {}
      invariant todo <= locators
      invariant forall e :: e in errors <==> e.UnknownHit? && e.loc in locators - todo - claimed
      decreases |todo|
    {
      var loc :| loc in todo;
      if loc !in claimed { errors := errors + [UnknownHit(loc)]; }
      todo := todo - {loc};
    }
  }

  /** A hit that no active row claims. */
  ghost predicate Unknown(hits: seq<Hit>, rows: seq<Row>, e: Error) {
    e.UnknownHit? && !Claims(rows, e.loc) && Found(hits, e.loc)
  }

  /** What is wrong between hits and rows. */
  ghost predicate Discrepancy(hits: seq<Hit>, rows: seq<Row>, e: Error) {
    SomeUnmatched(rows, |rows|, hits, e) || Unknown(hits, rows, e)
  }

  /** Nothing is said against a row exactly when it has its one hit with its members. */
  lemma MatchedIff(row: Row, found: seq<Hit>)
    requires row.Row?
    ensures (forall e :: !Unmatched(row, found, e)) <==> RowReconciled(row, found)
  {
    assert Unmatched(row, found, NoHit(row.id)) <==> |found| == 0;
    assert Unmatched(row, found, ManyHits(row.id, |found|)) <==> |found| > 1;
    assert Unmatched(row, found, MembersChanged(row.id)) <==>
           found != [] && row.members.Some? && !SameMembers(row, MembersOf(found));
    assert Unmatched(row, found, MembersNotPinned(row.id)) <==>
           row.members.None? && !SameMembers(row, MembersOf(found));
  }

  lemma ReconciledIff(hits: seq<Hit>, rows: seq<Row>)
    ensures (forall e :: !Discrepancy(hits, rows, e)) <==> Reconciled(hits, rows)
  {
    if forall e :: !Discrepancy(hits, rows, e) {
      forall i | 0 <= i < |rows| && rows[i].Active() ensures RowReconciled(rows[i], FoundAt(hits, rows[i].Loc())) {
        forall e ensures !Unmatched(rows[i], FoundAt(hits, rows[i].Loc()), e) { assert !Discrepancy(hits, rows, e); }
        MatchedIff(rows[i], FoundAt(hits, rows[i].Loc()));
      }
      forall k | 0 <= k < |hits| ensures Claims(rows, hits[k].Loc()) {
        assert !Discrepancy(hits, rows, UnknownHit(hits[k].Loc()));
      }
    }
    if Reconciled(hits, rows) {
      forall i | 0 <= i < |rows| && rows[i].Active()
        ensures forall e :: !Unmatched(rows[i], FoundAt(hits, rows[i].Loc()), e)
      {
        MatchedIff(rows[i], FoundAt(hits, rows[i].Loc()));
      }
    }
  }

  lemma ClaimedIff(rows: seq<Row>, loc: Locator)
    ensures loc in Claimed(rows) <==> Claims(rows, loc)
  {
  }

  ghost predicate Found(hits: seq<Hit>, loc: Locator) {
    exists k | 0 <= k < |hits| :: hits[k].Loc() == loc
  }

  lemma UnknownMeans(hits: seq<Hit>, rows: seq<Row>, locators: set<Locator>, unknown: seq<Error>)
    requires forall loc :: loc in locators <==> Found(hits, loc)
    requires forall e :: e in unknown <==> e.UnknownHit? && e.loc in locators - Claimed(rows)
    ensures forall e :: e in unknown <==> Unknown(hits, rows, e)
  {
    forall e ensures e in unknown <==> Unknown(hits, rows, e) { if e.UnknownHit? { ClaimedIff(rows, e.loc); } }
  }

  lemma SilentIff(hits: seq<Hit>, rows: seq<Row>, errors: seq<Error>)
    requires forall e :: e in errors <==> Discrepancy(hits, rows, e)
    ensures errors == [] <==> Reconciled(hits, rows)
  {
    ReconciledIff(hits, rows);
    assert errors != [] ==> errors[0] in errors;
  }

  method Reconcile(hits: seq<Hit>, rows: seq<Row>) returns (errors: seq<Error>)
    ensures errors == [] <==> Reconciled(hits, rows)
    ensures forall e :: e in errors <==> Discrepancy(hits, rows, e)
  {
    var byLocator := GroupByLocator(hits);
    var rowErrors, claimed := ReconcileRows(byLocator, rows, hits);
    var unknown := UnknownHits(byLocator.Keys, claimed);
    errors := rowErrors + unknown;
    UnknownMeans(hits, rows, byLocator.Keys, unknown);
    SilentIff(hits, rows, errors);
  }

  // ---------------------------------------------------------------------------------------------
  // check
  // ---------------------------------------------------------------------------------------------

  function Complete(rows: seq<Row>): seq<Row> {
    if rows == [] then [] else Complete(rows[..|rows| - 1]) + (if rows[|rows| - 1].Row? then [rows[|rows| - 1]] else [])
  }

  lemma {:induction false} CompleteIsAll(rows: seq<Row>)
    requires forall i | 0 <= i < |rows| :: rows[i].Row?
    ensures Complete(rows) == rows
  {
    if rows != [] { CompleteIsAll(rows[..|rows| - 1]); }
  }

  /**
   Active rows and hits correspond one to one by locator, with the members the row pins: no two active
   rows and no two hits share a locator, and both sides have the same locators.
   */
  ghost predicate OneToOne(rows: seq<Row>, hits: seq<Hit>) {
    && (forall i, j | 0 <= i < j < |rows| && rows[i].Active() && rows[j].Active() :: rows[i].Loc() != rows[j].Loc())
    && (forall k, l | 0 <= k < l < |hits| :: hits[k].Loc() != hits[l].Loc())
    && (forall k | 0 <= k < |hits| :: Claims(rows, hits[k].Loc()))
    && (forall i | 0 <= i < |rows| && rows[i].Active() :: HasHit(rows[i], hits))
  }

  ghost predicate HasHit(row: Row, hits: seq<Hit>)
    requires row.Row?
  {
    exists k | 0 <= k < |hits| :: hits[k].Loc() == row.Loc() && SameMembers(row, set m | m in hits[k].members)
  }

  lemma {:induction false} FoundTwice(hits: seq<Hit>, k: nat, l: nat)
    requires k < l < |hits| && hits[k].Loc() == hits[l].Loc()
    ensures |FoundAt(hits, hits[k].Loc())| >= 2
  {
    var init, loc := hits[..|hits| - 1], hits[k].Loc();
    if l < |hits| - 1 {
      FoundTwice(init, k, l);
    } else {
      FoundAtMembership(init, loc);
      assert init[k].Loc() == loc;
    }
  }

  lemma {:induction false} FoundOnce(hits: seq<Hit>, k: nat)
    requires k < |hits| && forall l | 0 <= l < |hits| && l != k :: hits[l].Loc() != hits[k].Loc()
    ensures FoundAt(hits, hits[k].Loc()) == [hits[k]]
  {
    var init, loc := hits[..|hits| - 1], hits[k].Loc();
    if k < |hits| - 1 {
      FoundOnce(init, k);
    } else {
      FoundAtMembership(init, loc);
    }
  }

  lemma MembersOfOne(h: Hit)
    ensures MembersOf([h]) == set m | m in h.members
  {
    assert forall m | m in h.members :: [h][0] == h;
  }

  /** A row and a hit, or two rows, are at one locator when path, symbol and operation agree. */
  lemma LocatorIsSite(row: Row, other: Row, hit: Hit)
    requires row.Row? && other.Row?
    ensures row.Loc() == hit.Loc() <==>
              row.path == hit.path && row.symbol == hit.symbol && row.operation == hit.operation
    ensures row.Loc() == other.Loc() <==>
              row.path == other.path && row.symbol == other.symbol && row.operation == other.operation
  {
  }

  /** A clean reconciliation of valid rows is exactly a one-to-one correspondence of the legacy rows with the hits. */
  lemma ReconciledIsOneToOne(rows: seq<Row>, hits: seq<Hit>, schema: Schema)
    requires RowsValid(rows, schema)
    ensures Reconciled(hits, rows) <==> OneToOne(rows, hits)
    ensures forall i | 0 <= i < |rows| :: rows[i].Active() <==> rows[i].Row? && rows[i].state == "legacy"
  {
    if Reconciled(hits, rows) {
      forall k, l | 0 <= k < l < |hits| ensures hits[k].Loc() != hits[l].Loc() {
        assert Claims(rows, hits[k].Loc());
        if hits[k].Loc() == hits[l].Loc() { FoundTwice(hits, k, l); }
      }
      forall i | 0 <= i < |rows| && rows[i].Active() ensures HasHit(rows[i], hits) {
        var loc := rows[i].Loc();
        FoundAtMembership(hits, loc);
        var k :| 0 <= k < |hits| && hits[k].Loc() == loc;
        FoundOnce(hits, k);
        MembersOfOne(hits[k]);
      }
    }
    if OneToOne(rows, hits) {
      forall i | 0 <= i < |rows| && rows[i].Active() ensures RowReconciled(rows[i], FoundAt(hits, rows[i].Loc())) {
        assert HasHit(rows[i], hits);
        var k :| 0 <= k < |hits| && hits[k].Loc() == rows[i].Loc()
            && SameMembers(rows[i], set m | m in hits[k].members);
        FoundOnce(hits, k);
        MembersOfOne(hits[k]);
      }
    }
  }

  /** The gate is clean exactly when the rows are valid and correspond one to one with the hits. */
  ghost predicate Clean(rows: seq<Row>, hits: seq<Hit>, schema: Schema) {
    RowsValid(rows, schema) && OneToOne(rows, hits)
  }

  lemma CheckMeansClean(rows: seq<Row>, hits: seq<Hit>, schema: Schema)
    ensures RowsValid(rows, schema) && Reconciled(hits, Complete(rows)) <==> Clean(rows, hits, schema)
  {
    if RowsValid(rows, schema) {
      CompleteIsAll(rows);
      ReconciledIsOneToOne(rows, hits, schema);
    }
  }

  /** The gate; `others` are the errors that transitions, matrix and totals report. */
  method Check(rows: seq<Row>, hits: seq<Hit>, schema: Schema, others: seq<Error>) returns (errors: seq<Error>)
    ensures errors == [] <==> Clean(rows, hits, schema) && others == []
    ensures forall e :: e in errors <==>
              SomeFault(rows, |rows|, schema, e) || Discrepancy(hits, Complete(rows), e) || e in others
  {
    errors := ValidateRows(rows, schema);
    var more := Reconcile(hits, Complete(rows));
    errors := errors + more + others;
    CheckMeansClean(rows, hits, schema);
  }

  /** A hit at the locator of a tombstone is always reported. */
  lemma TombstoneReappears(rows: seq<Row>, hits: seq<Hit>, schema: Schema, i: nat, k: nat)
    requires i < |rows| && rows[i].Row? && !rows[i].Active() && k < |hits| && hits[k].Loc() == rows[i].Loc()
    ensures !Clean(rows, hits, schema)
  {
    assert Clean(rows, hits, schema) ==> Claims(rows, hits[k].Loc());
  }

  /** Replacing one site by another, which leaves every count unchanged, is always reported. */
  lemma NetZeroSwap(rows: seq<Row>, hits: seq<Hit>, schema: Schema, k: nat, h: Hit)
    requires Clean(rows, hits, schema) && k < |hits| && h.Loc() != hits[k].Loc()
    ensures !Clean(rows, hits[k := h], schema)
  {
    var hits' := hits[k := h];
    var i :| 0 <= i < |rows| && rows[i].Active() && rows[i].Loc() == hits[k].Loc();
    assert forall l | 0 <= l < |hits'| :: hits'[l] == if l == k then h else hits[l];
    assert !HasHit(rows[i], hits');
  }
}
