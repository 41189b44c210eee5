/** The vehicle-compatibility catalog, its links to products, and the two migrations that fill it. */
module Vehicles {
  import opened Wrappers

  type Id = nat

  datatype Attrs = Attrs(make: string, model: string, generation: string, yearStart: int, yearEnd: int,
                         engine: string, trim: string, market: string)

  datatype Entry = Entry(id: Id, attrs: Attrs, notes: string)

  datatype LegacyRow = LegacyRow(product: Id, make: string, model: string, yearStart: int, yearEnd: int,
                                 engine: string, trim: string, notes: string)

  const DEFAULT_MARKET := "nigeria"

  function LowerChar(c: char): char
  {
    if 'A' <= c <= 'Z' then c - 'A' + 'a' else c
  }

  function Lower(s: string): string
  {
    seq(|s|, i requires 0 <= i < |s| => LowerChar(s[i]))
  }

  /** What two catalog entries must not share: text in lower case but for generation and trim. */
  function Key(a: Attrs): Attrs
  {
    a.(make := Lower(a.make), model := Lower(a.model), engine := Lower(a.engine), market := Lower(a.market))
  }

  function Defaulted(a: Attrs): Attrs
  {
    if a.market == "" then a.(market := DEFAULT_MARKET) else a
  }

  function AttrsOf(row: LegacyRow): Attrs
  {
    Attrs(row.make, row.model, "", row.yearStart, row.yearEnd, row.engine, row.trim, DEFAULT_MARKET)
  }

  // ---------------------------------------------------------------- the tables without their random ids

  datatype Vehicle = Vehicle(attrs: Attrs, notes: string)

  /** A link names its vehicle by key. */
  datatype Link = Link(product: Id, key: Attrs, notes: string)

  datatype Content = Content(catalog: seq<Vehicle>, links: set<Link>, legacy: Option<seq<LegacyRow>>)

  predicate HasKey(catalog: seq<Vehicle>, key: Attrs)
  {
    exists i :: 0 <= i < |catalog| && Key(catalog[i].attrs) == key
  }

  predicate HasLink(links: set<Link>, product: Id, key: Attrs)
  {
    exists l :: l in links && l.product == product && l.key == key
  }

  ghost predicate OneEntryPerKey(catalog: seq<Vehicle>)
  {
    forall i, j :: 0 <= i < j < |catalog| ==> Key(catalog[i].attrs) != Key(catalog[j].attrs)
  }

  function Catalogued(c: Content, v: Vehicle): Content
  {
    if HasKey(c.catalog, Key(v.attrs)) then c else c.(catalog := c.catalog + [v])
  }

  function Linked(c: Content, l: Link): Content
  {
    if HasLink(c.links, l.product, l.key) then c else c.(links := c.links + {l})
  }

  function VehicleOf(row: LegacyRow): Vehicle
  {
    Vehicle(AttrsOf(row), row.notes)
  }

  function LinkOf(row: LegacyRow): Link
  {
    Link(row.product, Key(AttrsOf(row)), row.notes)
  }

  function OneRow(c: Content, row: LegacyRow): Content
  {
    Linked(Catalogued(c, VehicleOf(row)), LinkOf(row))
  }

  function AllRows(c: Content, rows: seq<LegacyRow>): Content
  {
    if rows == [] then c else OneRow(AllRows(c, rows[..|rows| - 1]), rows[|rows| - 1])
  }

  /** The rows' statements, two a row, stopped after the first n. */
  function Partial(c: Content, rows: seq<LegacyRow>, n: nat): Content
    requires n <= 2 * |rows|
  {
    var done := AllRows(c, rows[..n / 2]);
    if n % 2 == 0 then done else Catalogued(done, VehicleOf(rows[n / 2]))
  }

  /** An attempt at the migration that stops after `n` statements: those of the rows, then the drop of
      the legacy table. */
  function Attempt(c: Content, n: nat): Content
  {
    if c.legacy.None? then c
    else if n > 2 * |c.legacy.value| then AllRows(c, c.legacy.value).(legacy := None)
    else Partial(c, c.legacy.value, n)
  }

  /** An attempt nothing stops. */
  function Complete(c: Content): Content
  {
    if c.legacy.None? then c else AllRows(c, c.legacy.value).(legacy := None)
  }

  /** Attempts one after the other, each started from the beginning. */
  function Attempts(c: Content, stops: seq<nat>): Content
  {
    if stops == [] then c else Attempt(Attempts(c, stops[..|stops| - 1]), stops[|stops| - 1])
  }

  // ---------------------------------------------------------------- crash and rerun

  ghost predicate Settled(c: Content, row: LegacyRow)
  {
    HasKey(c.catalog, Key(AttrsOf(row))) && HasLink(c.links, row.product, Key(AttrsOf(row)))
  }

  lemma OneRowSettles(c: Content, row: LegacyRow)
    ensures Settled(OneRow(c, row), row)
    ensures forall other :: Settled(c, other) ==> Settled(OneRow(c, row), other)
    ensures OneRow(c, row).legacy == c.legacy
    ensures Settled(c, row) ==> OneRow(c, row) == c
  {
    var d := Catalogued(c, VehicleOf(row));
    CataloguedHas(c, VehicleOf(row));
    var t := Linked(d, LinkOf(row));
    if !HasLink(d.links, row.product, LinkOf(row).key) {
      assert LinkOf(row) in t.links;
    }
    forall other | Settled(c, other) ensures Settled(t, other) {
      var l :| l in c.links && l.product == other.product && l.key == Key(AttrsOf(other));
      assert l in t.links;
    }
  }

  lemma CataloguedHas(c: Content, v: Vehicle)
    ensures HasKey(Catalogued(c, v).catalog, Key(v.attrs))
    ensures forall key :: HasKey(c.catalog, key) ==> HasKey(Catalogued(c, v).catalog, key)
    ensures OneEntryPerKey(c.catalog) ==> OneEntryPerKey(Catalogued(c, v).catalog)
  {
    var t := Catalogued(c, v);
    if !HasKey(c.catalog, Key(v.attrs)) {
      assert t.catalog[|c.catalog|] == v;
    }
    forall key | HasKey(c.catalog, key) ensures HasKey(t.catalog, key) {
      var i :| 0 <= i < |c.catalog| && Key(c.catalog[i].attrs) == key;
      assert t.catalog[i] == c.catalog[i];
    }
  }

  lemma {:induction false} AllRowsSettles(c: Content, rows: seq<LegacyRow>, k: nat)
    requires k < |rows|
    ensures Settled(AllRows(c, rows), rows[k])
    ensures AllRows(c, rows).legacy == c.legacy
  {
    var n := |rows| - 1;
    OneRowSettles(AllRows(c, rows[..n]), rows[n]);
    if k < n {
      AllRowsSettles(c, rows[..n], k);
    } else {
      AllRowsLegacy(c, rows[..n]);
    }
  }

  lemma {:induction false} AllRowsLegacy(c: Content, rows: seq<LegacyRow>)
    ensures AllRows(c, rows).legacy == c.legacy
  {
    if rows != [] {
      AllRowsLegacy(c, rows[..|rows| - 1]);
      OneRowSettles(AllRows(c, rows[..|rows| - 1]), rows[|rows| - 1]);
    }
  }

  lemma {:induction false} AllRowsJoin(c: Content, a: seq<LegacyRow>, b: seq<LegacyRow>)
    ensures AllRows(c, a + b) == AllRows(AllRows(c, a), b)
  {
    if b == [] {
      assert a + b == a;
    } else {
      var n := |b| - 1;
      AllRowsJoin(c, a, b[..n]);
      assert (a + b)[..|a + b| - 1] == a + b[..n];
    }
  }

  lemma {:induction false} SettledRowsAgain(c: Content, rows: seq<LegacyRow>)
    requires forall row :: row in rows ==> Settled(c, row)
    ensures AllRows(c, rows) == c
  {
    if rows != [] {
      var n := |rows| - 1;
      assert rows[n] in rows;
      SettledRowsAgain(c, rows[..n]);
      OneRowSettles(c, rows[n]);
    }
  }

  lemma PrefixAgain(c: Content, rows: seq<LegacyRow>, k: nat)
    requires k <= |rows| && forall row :: row in rows[..k] ==> Settled(c, row)
    ensures AllRows(c, rows) == AllRows(c, rows[k..])
  {
    SettledRowsAgain(c, rows[..k]);
    assert rows == rows[..k] + rows[k..];
    AllRowsJoin(c, rows[..k], rows[k..]);
  }

  lemma HalfRowFinishes(c: Content, rows: seq<LegacyRow>)
    requires rows != []
    ensures AllRows(Catalogued(c, VehicleOf(rows[0])), rows) == AllRows(c, rows)
  {
    var half := Catalogued(c, VehicleOf(rows[0]));
    CataloguedHas(c, VehicleOf(rows[0]));
    assert OneRow(half, rows[0]) == OneRow(c, rows[0]);
    assert rows == [rows[0]] + rows[1..] && [rows[0]][..0] == [];
    AllRowsJoin(half, [rows[0]], rows[1..]);
    AllRowsJoin(c, [rows[0]], rows[1..]);
    assert AllRows(half, [rows[0]]) == OneRow(half, rows[0]);
    assert AllRows(c, [rows[0]]) == OneRow(c, rows[0]);
  }

  lemma PrefixSettled(c: Content, rows: seq<LegacyRow>, k: nat, half: Option<Vehicle>)
    requires k <= |rows|
    ensures var done := AllRows(c, rows[..k]);
      forall row :: row in rows[..k] ==> Settled(if half.Some? then Catalogued(done, half.value) else done, row)
  {
    var done := AllRows(c, rows[..k]);
    forall row | row in rows[..k] ensures Settled(if half.Some? then Catalogued(done, half.value) else done, row) {
      var i :| 0 <= i < k && rows[..k][i] == row;
      AllRowsSettles(c, rows[..k], i);
      if half.Some? { CataloguedHas(done, half.value); }
    }
  }

  /** Rows done before a stop are done again to no effect, and the row half done is finished. */
  lemma RerunFinishes(c: Content, rows: seq<LegacyRow>, k: nat, half: bool)
    requires k <= |rows| && (half ==> k < |rows|)
    ensures var done := AllRows(c, rows[..k]);
      AllRows(if half then Catalogued(done, VehicleOf(rows[k])) else done, rows) == AllRows(c, rows)
  {
    var done := AllRows(c, rows[..k]);
    assert rows == rows[..k] + rows[k..];
    AllRowsJoin(c, rows[..k], rows[k..]);
    if half {
      PrefixSettled(c, rows, k, Some(VehicleOf(rows[k])));
      PrefixAgain(Catalogued(done, VehicleOf(rows[k])), rows, k);
      HalfRowFinishes(done, rows[k..]);
    } else {
      PrefixSettled(c, rows, k, None);
      PrefixAgain(done, rows, k);
    }
  }

  lemma AttemptThenComplete(c: Content, n: nat)
    ensures Complete(Attempt(c, n)) == Complete(c)
  {
    if c.legacy.Some? && n <= 2 * |c.legacy.value| {
      RerunFinishes(c, c.legacy.value, n / 2, n % 2 == 1);
      AllRowsLegacy(c, c.legacy.value[..n / 2]);
    }
  }

  /** However often the migration is stopped, and after whatever statement each time, rerunning it
      to the end gives the catalog and links of one uninterrupted run. */
  lemma {:induction false} CrashesConverge(c: Content, stops: seq<nat>)
    ensures Complete(Attempts(c, stops)) == Complete(c)
  {
    if stops != [] {
      var n := |stops| - 1;
      CrashesConverge(c, stops[..n]);
      AttemptThenComplete(Attempts(c, stops[..n]), stops[n]);
    }
  }

  lemma {:induction false} AllRowsKeepKeys(c: Content, rows: seq<LegacyRow>)
    requires OneEntryPerKey(c.catalog)
    ensures OneEntryPerKey(AllRows(c, rows).catalog)
  {
    if rows != [] {
      var n := |rows| - 1;
      AllRowsKeepKeys(c, rows[..n]);
      CataloguedHas(AllRows(c, rows[..n]), VehicleOf(rows[n]));
    }
  }

  /** At no point of any sequence of attempts does the catalog hold two entries under one key;
      and a completed migration has catalogued and linked every legacy row. */
  lemma {:induction false} MigrationKeepsKeys(c: Content, stops: seq<nat>)
    requires OneEntryPerKey(c.catalog)
    ensures OneEntryPerKey(Attempts(c, stops).catalog)
    ensures c.legacy.Some? ==> forall row :: row in c.legacy.value ==> Settled(Complete(c), row)
  {
    if stops != [] {
      var n := |stops| - 1;
      MigrationKeepsKeys(c, stops[..n]);
      var before := Attempts(c, stops[..n]);
      if before.legacy.Some? {
        AllRowsKeepKeys(before, before.legacy.value);
        var k := stops[n] / 2;
        if stops[n] <= 2 * |before.legacy.value| {
          AllRowsKeepKeys(before, before.legacy.value[..k]);
          if stops[n] % 2 == 1 {
            CataloguedHas(AllRows(before, before.legacy.value[..k]), VehicleOf(before.legacy.value[k]));
          }
        }
      }
    }
    if c.legacy.Some? {
      forall row | row in c.legacy.value ensures Settled(Complete(c), row) {
        var k :| 0 <= k < |c.legacy.value| && c.legacy.value[k] == row;
        AllRowsSettles(c, c.legacy.value, k);
      }
    }
  }

  // ---------------------------------------------------------------- what the migration writes

  /** Equal but for the case of letters. */
  predicate SameLetter(c: char, d: char)
  {
    || c == d
    || ('A' <= c <= 'Z' && 'a' <= d <= 'z' && d - 'a' == c - 'A')
    || ('A' <= d <= 'Z' && 'a' <= c <= 'z' && c - 'a' == d - 'A')
  }

  predicate SameText(a: string, b: string)
  {
    |a| == |b| && forall i :: 0 <= i < |a| ==> SameLetter(a[i], b[i])
  }

  lemma LowerIff(a: string, b: string)
    ensures Lower(a) == Lower(b) <==> SameText(a, b)
  {
    if Lower(a) == Lower(b) {
      forall i | 0 <= i < |a| ensures SameLetter(a[i], b[i]) {
        assert Lower(a)[i] == Lower(b)[i];
        LowerCharIff(a[i], b[i]);
      }
    }
    if SameText(a, b) {
      forall i | 0 <= i < |a| ensures Lower(a)[i] == Lower(b)[i] {
        LowerCharIff(a[i], b[i]);
      }
      assert Lower(a) == Lower(b);
    }
  }

  lemma LowerCharIff(c: char, d: char)
    ensures LowerChar(c) == LowerChar(d) <==> SameLetter(c, d)
  {
  }

  /** Two vehicles the catalog must not hold twice. */
  predicate SameVehicle(a: Attrs, b: Attrs)
  {
    && a.generation == b.generation && a.trim == b.trim && a.yearStart == b.yearStart && a.yearEnd == b.yearEnd
    && SameText(a.make, b.make) && SameText(a.model, b.model)
    && SameText(a.engine, b.engine) && SameText(a.market, b.market)
  }

  /** Two keys are one exactly if generation, trim and years agree, and the other texts but for case. */
  lemma KeyIff(a: Attrs, b: Attrs)
    ensures Key(a) == Key(b) <==> SameVehicle(a, b)
  {
    LowerIff(a.make, b.make);
    LowerIff(a.model, b.model);
    LowerIff(a.engine, b.engine);
    LowerIff(a.market, b.market);
  }

  lemma KeyOfKey(a: Attrs)
    ensures Key(Key(a)) == Key(a)
  {
    LowerTwice(a.make);
    LowerTwice(a.model);
    LowerTwice(a.engine);
    LowerTwice(a.market);
  }

  lemma LowerTwice(s: string)
    ensures Lower(Lower(s)) == Lower(s)
  {
  }

  /** These attributes are what a legacy row says of its vehicle, but for case. */
  predicate Describes(a: Attrs, row: LegacyRow)
  {
    && a.yearStart == row.yearStart && a.yearEnd == row.yearEnd && a.trim == row.trim && a.generation == ""
    && SameText(a.make, row.make) && SameText(a.model, row.model) && SameText(a.engine, row.engine)
    && SameText(a.market, "nigeria")
  }

  lemma DescribesIff(a: Attrs, row: LegacyRow)
    ensures Key(a) == Key(AttrsOf(row)) <==> Describes(a, row)
  {
    KeyIff(a, AttrsOf(row));
  }

  /** The row's vehicle is in the catalog, and its product linked to it. */
  ghost predicate Migrated(c: Content, row: LegacyRow)
  {
    exists i, l :: 0 <= i < |c.catalog| && l in c.links && Describes(c.catalog[i].attrs, row)
                   && l.product == row.product && SameVehicle(l.key, c.catalog[i].attrs)
  }

  lemma SettledIsMigrated(c: Content, row: LegacyRow)
    requires Settled(c, row)
    ensures Migrated(c, row)
  {
    var i :| 0 <= i < |c.catalog| && Key(c.catalog[i].attrs) == Key(AttrsOf(row));
    var l :| l in c.links && l.product == row.product && l.key == Key(AttrsOf(row));
    DescribesIff(c.catalog[i].attrs, row);
    KeyOfKey(AttrsOf(row));
    KeyIff(l.key, c.catalog[i].attrs);
  }

  /** A catalog entry made from a legacy row. */
  predicate EntryFrom(v: Vehicle, row: LegacyRow)
  {
    v == Vehicle(Attrs(row.make, row.model, "", row.yearStart, row.yearEnd, row.engine, row.trim, "nigeria"), row.notes)
  }

  /** A link made from a legacy row. */
  predicate LinkFrom(l: Link, row: LegacyRow)
  {
    l.product == row.product && l.notes == row.notes && Describes(l.key, row)
  }

  ghost predicate MadeFrom(v: Vehicle, rows: seq<LegacyRow>)
  {
    exists row :: row in rows && EntryFrom(v, row)
  }

  ghost predicate LinkedFrom(l: Link, rows: seq<LegacyRow>)
  {
    exists row :: row in rows && LinkFrom(l, row)
  }

  /** What was there stays, and all that is new comes from these rows. */
  ghost predicate GrownFrom(c: Content, d: Content, rows: seq<LegacyRow>)
  {
    && c.catalog <= d.catalog && c.links <= d.links
    && (forall i :: |c.catalog| <= i < |d.catalog| ==> MadeFrom(d.catalog[i], rows))
    && (forall l :: l in d.links && l !in c.links ==> LinkedFrom(l, rows))
  }

  lemma OneRowGrows(c: Content, d: Content, rows: seq<LegacyRow>, row: LegacyRow)
    requires GrownFrom(c, d, rows)
    ensures GrownFrom(c, OneRow(d, row), rows + [row])
  {
    var t := OneRow(d, row);
    assert row in rows + [row] && EntryFrom(VehicleOf(row), row);
    KeyOfKey(AttrsOf(row));
    DescribesIff(LinkOf(row).key, row);
    forall i | |c.catalog| <= i < |t.catalog| ensures MadeFrom(t.catalog[i], rows + [row]) {
      if i < |d.catalog| {
        assert MadeFrom(d.catalog[i], rows);
        var r :| r in rows && EntryFrom(d.catalog[i], r);
        assert r in rows + [row] && EntryFrom(t.catalog[i], r);
      }
    }
    forall l | l in t.links && l !in c.links ensures LinkedFrom(l, rows + [row]) {
      if l in d.links {
        assert LinkedFrom(l, rows);
        var r :| r in rows && LinkFrom(l, r);
        assert r in rows + [row] && LinkFrom(l, r);
      } else {
        assert l == LinkOf(row) && LinkFrom(l, row);
      }
    }
  }

  lemma {:induction false} AllRowsGrow(c: Content, rows: seq<LegacyRow>)
    ensures GrownFrom(c, AllRows(c, rows), rows)
  {
    if rows != [] {
      var n := |rows| - 1;
      AllRowsGrow(c, rows[..n]);
      OneRowGrows(c, AllRows(c, rows[..n]), rows[..n], rows[n]);
      assert rows == rows[..n] + [rows[n]];
    }
  }

  /** A finished migration has every legacy row's vehicle in the catalog, with its years, trim, make, model and engine,
      and the row's product linked to it; new entries and links come from the rows alone, and carry their notes. */
  lemma MigrationOutcome(c: Content)
    requires c.legacy.Some?
    ensures var d := Complete(c);
      && d.legacy.None?
      && (forall row :: row in c.legacy.value ==> Migrated(d, row))
      && GrownFrom(c, d, c.legacy.value)
  {
    var d := Complete(c);
    AllRowsGrow(c, c.legacy.value);
    assert d.catalog == AllRows(c, c.legacy.value).catalog && d.links == AllRows(c, c.legacy.value).links;
    forall row | row in c.legacy.value ensures Migrated(d, row) {
      var k :| 0 <= k < |c.legacy.value| && c.legacy.value[k] == row;
      AllRowsSettles(c, c.legacy.value, k);
      SettledIsMigrated(d, row);
    }
  }

  /** An attempt drops the legacy table, and is then a finished one, exactly if it gets past two statements a row. */
  lemma AttemptFinishes(c: Content, n: nat)
    requires c.legacy.Some?
    ensures Attempt(c, n).legacy.None? <==> n > 2 * |c.legacy.value|
    ensures n > 2 * |c.legacy.value| ==> Attempt(c, n) == Complete(c)
    ensures n <= 2 * |c.legacy.value| ==> Attempt(c, n).legacy == c.legacy
  {
    if n <= 2 * |c.legacy.value| { AllRowsLegacy(c, c.legacy.value[..n / 2]); }
  }

  /** A vehicle without a market is put on the default one. */
  lemma DefaultedOutcome(a: Attrs)
    ensures Defaulted(a) == a.(market := if a.market == "" then "nigeria" else a.market)
  {
  }

  // ---------------------------------------------------------------- the whole start-up

  /** Which tables exist. `owned` and `catalog` are the two shapes of one table name. */
  datatype Schema = Schema(owned: Option<seq<LegacyRow>>, catalog: Option<seq<Vehicle>>, links: Option<set<Link>>,
                           legacy: Option<seq<LegacyRow>>)

  ghost predicate WellFormed(s: Schema)
  {
    s.owned.Some? ==> s.catalog.None? && s.legacy.None?
  }

  /** Renames the product-owned table, unless a renamed one is there. */
  function Prepare(s: Schema): Schema
  {
    if s.owned.Some? && s.legacy.None? then s.(owned := None, legacy := s.owned) else s
  }

  function CreateCatalog(s: Schema): Schema
  {
    if s.owned.None? && s.catalog.None? then s.(catalog := Some([])) else s
  }

  function CreateLinks(s: Schema): Schema
  {
    if s.links.None? then s.(links := Some({})) else s
  }

  /** The backfill, stopped after some statements or not at all. */
  function Backfill(s: Schema, stop: Option<nat>): Schema
  {
    if s.legacy.None? || s.catalog.None? || s.links.None? then s
    else
      var c := Content(s.catalog.value, s.links.value, s.legacy);
      var d := if stop.Some? then Attempt(c, stop.value) else Complete(c);
      s.(catalog := Some(d.catalog), links := Some(d.links), legacy := d.legacy)
  }

  function Startup(s: Schema): Schema
  {
    Backfill(CreateLinks(CreateCatalog(Prepare(s))), None)
  }

  function StoppedStartup(s: Schema, n: nat): Schema
  {
    if n == 0 then s
    else if n == 1 then Prepare(s)
    else if n == 2 then CreateCatalog(Prepare(s))
    else if n == 3 then CreateLinks(CreateCatalog(Prepare(s)))
    else Backfill(CreateLinks(CreateCatalog(Prepare(s))), Some(n - 3))
  }

  function StoppedStartups(s: Schema, stops: seq<nat>): Schema
  {
    if stops == [] then s else StoppedStartup(StoppedStartups(s, stops[..|stops| - 1]), stops[|stops| - 1])
  }

  lemma StoppedThenStartup(s: Schema, n: nat)
    requires WellFormed(s)
    ensures WellFormed(StoppedStartup(s, n))
    ensures Startup(StoppedStartup(s, n)) == Startup(s)
  {
    var t := CreateLinks(CreateCatalog(Prepare(s)));
    if n > 3 && t.legacy.Some? {
      var c := Content(t.catalog.value, t.links.value, t.legacy);
      AttemptThenComplete(c, n - 3);
    }
  }

  /** From any table layout without a renamed table beside a product-owned one, however often start-up is
      stopped and after whatever statement, rename and
      table creation included, the next uninterrupted start-up ends as the first would have. */
  lemma {:induction false} StartupConverges(s: Schema, stops: seq<nat>)
    requires WellFormed(s)
    ensures WellFormed(StoppedStartups(s, stops))
    ensures Startup(StoppedStartups(s, stops)) == Startup(s)
  {
    if stops != [] {
      var n := |stops| - 1;
      StartupConverges(s, stops[..n]);
      StoppedThenStartup(StoppedStartups(s, stops[..n]), stops[n]);
    }
  }

  /** Start-up ends with both tables there and the product-owned rows, renamed before or just now, migrated. */
  lemma StartupMigrates(s: Schema)
    requires WellFormed(s)
    ensures var before := Content(if s.catalog.Some? then s.catalog.value else [],
                                  if s.links.Some? then s.links.value else {},
                                  if s.owned.Some? then s.owned else s.legacy);
      var d := Complete(before);
      && Startup(s) == Schema(None, Some(d.catalog), Some(d.links), None)
      && (before.legacy.Some? ==>
            && (forall row :: row in before.legacy.value ==> Migrated(d, row))
            && GrownFrom(before, d, before.legacy.value))
      && (before.legacy.None? ==> d == before)
  {
    var before := Content(if s.catalog.Some? then s.catalog.value else [],
                          if s.links.Some? then s.links.value else {},
                          if s.owned.Some? then s.owned else s.legacy);
    if before.legacy.Some? { MigrationOutcome(before); }
  }

  /** A start-up stopped in the backfill leaves what the migration had done by then. */
  lemma StoppedInBackfill(s: Schema, n: nat)
    requires WellFormed(s) && (s.owned.Some? || s.legacy.Some?)
    ensures var before := Content(if s.catalog.Some? then s.catalog.value else [],
                                  if s.links.Some? then s.links.value else {},
                                  if s.owned.Some? then s.owned else s.legacy);
      var d := Attempt(before, n + 1);
      StoppedStartup(s, n + 4) == Schema(None, Some(d.catalog), Some(d.links), d.legacy)
  {
  }

  // ---------------------------------------------------------------- the tables with their ids

  predicate HasId(catalog: seq<Entry>, id: Id)
  {
    exists i :: 0 <= i < |catalog| && catalog[i].id == id
  }

  function KeyOfId(catalog: seq<Entry>, id: Id): Attrs
    requires HasId(catalog, id)
  {
    var n := |catalog| - 1;
    if catalog[n].id == id then Key(catalog[n].attrs) else KeyOfId(catalog[..n], id)
  }

  function Plain(catalog: seq<Entry>): seq<Vehicle>
  {
    seq(|catalog|, i requires 0 <= i < |catalog| => Vehicle(catalog[i].attrs, catalog[i].notes))
  }

  ghost function PlainLinks(catalog: seq<Entry>, links: map<(Id, Id), string>): set<Link>
  {
    set k | k in links && HasId(catalog, k.1) :: Link(k.0, KeyOfId(catalog, k.1), links[k])
  }

  /** Ids and keys are unique and no link dangles. */
  ghost predicate Consistent(catalog: seq<Entry>, links: map<(Id, Id), string>)
  {
    && (forall i, j :: 0 <= i < j < |catalog| ==> catalog[i].id != catalog[j].id)
    && OneEntryPerKey(Plain(catalog))
    && (forall k :: k in links ==> HasId(catalog, k.1))
  }

  lemma {:induction false} KeyOfIdAt(catalog: seq<Entry>, i: nat)
    requires i < |catalog| && forall i, j :: 0 <= i < j < |catalog| ==> catalog[i].id != catalog[j].id
    ensures HasId(catalog, catalog[i].id) && KeyOfId(catalog, catalog[i].id) == Key(catalog[i].attrs)
  {
    var n := |catalog| - 1;
    if i < n {
      assert catalog[..n][i] == catalog[i];
      KeyOfIdAt(catalog[..n], i);
    }
  }

  lemma KeyOfIdSnoc(catalog: seq<Entry>, e: Entry, id: Id)
    requires HasId(catalog, id) && id != e.id
    ensures HasId(catalog + [e], id) && KeyOfId(catalog + [e], id) == KeyOfId(catalog, id)
  {
    var i :| 0 <= i < |catalog| && catalog[i].id == id;
    assert (catalog + [e])[i].id == id;
    assert (catalog + [e])[..|catalog|] == catalog;
  }

  lemma SnocEntryLinks(catalog: seq<Entry>, links: map<(Id, Id), string>, e: Entry)
    requires Consistent(catalog, links) && !HasId(catalog, e.id)
    ensures PlainLinks(catalog + [e], links) == PlainLinks(catalog, links)
    ensures forall k :: k in links ==> HasId(catalog + [e], k.1)
  {
    forall k | k in links ensures HasId(catalog + [e], k.1) && KeyOfId(catalog + [e], k.1) == KeyOfId(catalog, k.1) {
      KeyOfIdSnoc(catalog, e, k.1);
    }
    forall l | l in PlainLinks(catalog, links) ensures l in PlainLinks(catalog + [e], links) {
      var k :| k in links && HasId(catalog, k.1) && l == Link(k.0, KeyOfId(catalog, k.1), links[k]);
      assert l == Link(k.0, KeyOfId(catalog + [e], k.1), links[k]);
    }
    forall l | l in PlainLinks(catalog + [e], links) ensures l in PlainLinks(catalog, links) {
      var k :| k in links && HasId(catalog + [e], k.1) && l == Link(k.0, KeyOfId(catalog + [e], k.1), links[k]);
      assert l == Link(k.0, KeyOfId(catalog, k.1), links[k]);
    }
  }

  lemma SameKeySameId(catalog: seq<Entry>, links: map<(Id, Id), string>, a: Id, b: Id)
    requires Consistent(catalog, links) && HasId(catalog, a) && HasId(catalog, b)
    requires KeyOfId(catalog, a) == KeyOfId(catalog, b)
    ensures a == b
  {
    var i :| 0 <= i < |catalog| && catalog[i].id == a;
    var j :| 0 <= j < |catalog| && catalog[j].id == b;
    KeyOfIdAt(catalog, i);
    KeyOfIdAt(catalog, j);
    assert Key(Plain(catalog)[i].attrs) == Key(Plain(catalog)[j].attrs);
    assert i == j;
  }

  /** A link by id is a link by key. */
  lemma LinkedIff(catalog: seq<Entry>, links: map<(Id, Id), string>, product: Id, id: Id)
    requires Consistent(catalog, links) && HasId(catalog, id)
    ensures (product, id) in links <==> HasLink(PlainLinks(catalog, links), product, KeyOfId(catalog, id))
  {
    if (product, id) in links {
      assert Link(product, KeyOfId(catalog, id), links[(product, id)]) in PlainLinks(catalog, links);
    }
    if l :| l in PlainLinks(catalog, links) && l.product == product && l.key == KeyOfId(catalog, id) {
      var k :| k in links && HasId(catalog, k.1) && l == Link(k.0, KeyOfId(catalog, k.1), links[k]);
      SameKeySameId(catalog, links, k.1, id);
      assert k == (product, id);
    }
  }

  /** Writing one link replaces whatever stood under its product and key. */
  lemma WriteLink(catalog: seq<Entry>, links: map<(Id, Id), string>, product: Id, id: Id, notes: string)
    requires Consistent(catalog, links) && HasId(catalog, id)
    ensures PlainLinks(catalog, links[(product, id) := notes])
         == Without(PlainLinks(catalog, links), product, KeyOfId(catalog, id))
            + {Link(product, KeyOfId(catalog, id), notes)}
  {
    var key := KeyOfId(catalog, id);
    var after := links[(product, id) := notes];
    var left := PlainLinks(catalog, after);
    var right := Without(PlainLinks(catalog, links), product, key) + {Link(product, key, notes)};
    forall l | l in left ensures l in right {
      var k :| k in after && HasId(catalog, k.1) && l == Link(k.0, KeyOfId(catalog, k.1), after[k]);
      if k != (product, id) {
        if k.0 == product && KeyOfId(catalog, k.1) == key { SameKeySameId(catalog, links, k.1, id); }
        assert l in PlainLinks(catalog, links);
      }
    }
    forall l | l in right ensures l in left {
      if l == Link(product, key, notes) {
        assert after[(product, id)] == notes;
      } else {
        var k :| k in links && HasId(catalog, k.1) && l == Link(k.0, KeyOfId(catalog, k.1), links[k]);
        assert k in after && after[k] == links[k];
      }
    }
  }

  function Without(links: set<Link>, product: Id, key: Attrs): set<Link>
  {
    set l | l in links && !(l.product == product && l.key == key)
  }

  /** What linking a product by hand does: notes that are given replace the ones that stood there. */
  function Relinked(c: Content, l: Link): Content
  {
    if HasLink(c.links, l.product, l.key) && l.notes == "" then c
    else c.(links := Without(c.links, l.product, l.key) + {l})
  }

  /** After a link by hand the product has one under the key: with the notes given, or with those that stood there if
      none are given. Every other link stays. */
  lemma RelinkedOutcome(c: Content, l: Link)
    ensures var t := Relinked(c, l);
      && t == c.(links := t.links)
      && HasLink(t.links, l.product, l.key)
      && forall m :: m in t.links <==>
           if m.product != l.product || m.key != l.key || (l.notes == "" && HasLink(c.links, l.product, l.key))
           then m in c.links else m.notes == l.notes
  {
    var t := Relinked(c, l);
    assert (HasLink(c.links, l.product, l.key) && l.notes == "") || l in t.links;
  }

  function PositionOf(catalog: seq<Entry>, key: Attrs): (i: nat)
    ensures i <= |catalog| && (i < |catalog| ==> Key(catalog[i].attrs) == key)
    ensures forall j :: 0 <= j < i ==> Key(catalog[j].attrs) != key
  {
    if catalog == [] then 0
    else if Key(catalog[0].attrs) == key then 0
    else 1 + PositionOf(catalog[1..], key)
  }

  /** The ids still to be drawn are new and different. */
  ghost predicate Fresh(catalog: seq<Entry>, newIds: seq<Id>, from: nat)
  {
    && (forall i :: from <= i < |newIds| ==> !HasId(catalog, newIds[i]))
    && (forall i, j :: from <= i < j < |newIds| ==> newIds[i] != newIds[j])
  }

  /** At most one entry was added, under the id drawn for it. */
  ghost predicate Grown(before: seq<Entry>, after: seq<Entry>, newId: Id)
  {
    after == before || (|after| == |before| + 1 && after[..|before|] == before && after[|before|].id == newId)
  }

  lemma FreshKept(before: seq<Entry>, after: seq<Entry>, newIds: seq<Id>, n: nat)
    requires Fresh(before, newIds, n) && n < |newIds|
    requires Grown(before, after, newIds[n])
    ensures Fresh(after, newIds, n + 1)
  {
  }

  lemma PartialRow(c: Content, rows: seq<LegacyRow>, n: nat)
    requires n < |rows|
    ensures AllRows(c, rows[..n + 1]) == OneRow(AllRows(c, rows[..n]), rows[n])
  {
    assert rows[..n + 1][..n] == rows[..n];
  }

  lemma PartialStopped(c: Content, rows: seq<LegacyRow>, n: nat, stop: nat)
    requires n < |rows| && 2 * n <= stop < 2 * n + 2
    ensures Partial(c, rows, stop)
      == if stop == 2 * n then AllRows(c, rows[..n]) else Catalogued(AllRows(c, rows[..n]), VehicleOf(rows[n]))
  {
  }

  lemma {:induction false} PartialWhole(c: Content, rows: seq<LegacyRow>)
    ensures Partial(c, rows, 2 * |rows|) == AllRows(c, rows)
  {
    assert rows[..|rows|] == rows;
  }

  /** The catalog repository and the migration over the shared tables. */
  class VehicleStore {
    var catalog: seq<Entry>
    var links: map<(Id, Id), string>
    var legacy: Option<seq<LegacyRow>>

    ghost predicate Valid()
      reads this
    {
      Consistent(catalog, links)
    }

    ghost function View(): Content
      reads this
    {
      Content(Plain(catalog), PlainLinks(catalog, links), legacy)
    }

    constructor (legacy: Option<seq<LegacyRow>>)
      ensures Valid() && View() == Content([], {}, legacy)
    {
      catalog, links, this.legacy := [], map[], legacy;
    }

    /** `newId` is the random id a new entry would get; no entry has it yet. */
    method FindOrCreate(given: Attrs, notes: string, newId: Id) returns (id: Id)
      requires Valid() && !HasId(catalog, newId)
      modifies `catalog
      ensures Valid() && View() == Catalogued(old(View()), Vehicle(Defaulted(given), notes))
      ensures HasId(catalog, id) && KeyOfId(catalog, id) == Key(Defaulted(given))
      ensures catalog == old(catalog) || catalog == old(catalog) + [Entry(newId, Defaulted(given), notes)]
    {
      var attrs := given;
      if attrs.market == "" {
        attrs := attrs.(market := DEFAULT_MARKET);
      }
      var i := PositionOf(catalog, Key(attrs));
      if i < |catalog| {
        assert Plain(catalog)[i].attrs == catalog[i].attrs;
        KeyOfIdAt(catalog, i);
        return catalog[i].id;
      }
      assert forall j :: 0 <= j < |catalog| ==> Plain(catalog)[j].attrs == catalog[j].attrs;
      var entry := Entry(newId, attrs, notes);
      SnocEntryLinks(catalog, links, entry);
      CataloguedHas(View(), Vehicle(attrs, notes));
      assert Plain(catalog + [entry]) == Plain(catalog) + [Vehicle(attrs, notes)];
      catalog := catalog + [entry];
      assert catalog[|catalog| - 1].id == newId;
      KeyOfIdAt(catalog, |catalog| - 1);
      id := newId;
    }

    /** The migration's own linking keeps a link that is there. */
    method FirstOrCreateLink(product: Id, id: Id, notes: string)
      requires Valid() && HasId(catalog, id)
      modifies `links
      ensures Valid() && View() == Linked(old(View()), Link(product, KeyOfId(catalog, id), notes))
    {
      LinkedIff(catalog, links, product, id);
      if (product, id) in links {
        return;
      }
      WriteLink(catalog, links, product, id, notes);
      assert Without(PlainLinks(catalog, links), product, KeyOfId(catalog, id)) == PlainLinks(catalog, links);
      links := links[(product, id) := notes];
    }

    method LinkProduct(product: Id, id: Id, notes: string)
      requires Valid() && HasId(catalog, id)
      modifies `links
      ensures Valid() && View() == Relinked(old(View()), Link(product, KeyOfId(catalog, id), notes))
    {
      LinkedIff(catalog, links, product, id);
      WriteLink(catalog, links, product, id, notes);
      if (product, id) in links {
        if notes != "" && links[(product, id)] != notes {
          links := links[(product, id) := notes];
        } else if notes != "" {
          assert links[(product, id) := notes] == links;
        }
        return;
      }
      links := links[(product, id) := notes];
    }

    /** One legacy row with at most `left` statements to go: its entry, then its link. */
    method MigrateRow(row: LegacyRow, newId: Id, left: nat) returns (finished: bool)
      requires Valid() && !HasId(catalog, newId)
      modifies `catalog, `links
      ensures Valid() && finished == (left >= 2)
      ensures left == 0 ==> View() == old(View())
      ensures left == 1 ==> View() == Catalogued(old(View()), VehicleOf(row))
      ensures left >= 2 ==> View() == OneRow(old(View()), row)
      ensures Grown(old(catalog), catalog, newId)
    {
      if left == 0 {
        return false;
      }
      var id := FindOrCreate(AttrsOf(row), row.notes, newId);
      if left == 1 {
        return false;
      }
      FirstOrCreateLink(row.product, id, row.notes);
      finished := true;
    }

    /** The loop over the legacy rows, with at most `budget` statements to go. */
    method MigrateRows(rows: seq<LegacyRow>, budget: nat, newIds: seq<Id>) returns (finished: bool)
      requires Valid() && |newIds| == |rows| && Fresh(catalog, newIds, 0)
      modifies `catalog, `links
      ensures Valid() && finished == (budget >= 2 * |rows|)
      ensures View() == Partial(old(View()), rows, if finished then 2 * |rows| else budget)
    {
      ghost var start := View();
      for n := 0 to |rows|
        invariant Valid() && 2 * n <= budget
        invariant View() == AllRows(start, rows[..n])
        invariant Fresh(catalog, newIds, n)
      {
        ghost var before := catalog;
        var whole := MigrateRow(rows[n], newIds[n], budget - 2 * n);
        if !whole {
          PartialStopped(start, rows, n, budget);
          return false;
        }
        PartialRow(start, rows, n);
        FreshKept(before, catalog, newIds, n);
      }
      finished := true;
      PartialWhole(start, rows);
      assert rows[..|rows|] == rows;
    }

    /** One attempt, stopped after `budget` statements; `newIds` are the random ids it may draw. */
    method MigrateVehicleCompatibilityM2M(budget: nat, newIds: seq<Id>) returns (finished: bool)
      requires Valid()
      requires legacy.Some? ==> |newIds| == |legacy.value|
      requires Fresh(catalog, newIds, 0)
      modifies this
      ensures Valid() && View() == Attempt(old(View()), budget)
      ensures finished == (old(legacy).None? || budget > 2 * |old(legacy).value|)
    {
      if legacy.None? {
        return true;
      }
      var rows := legacy.value;
      PartialWhole(View(), rows);
      finished := MigrateRows(rows, budget, newIds);
      if !finished || budget == 2 * |rows| {
        return false;
      }
      legacy := None;
    }
  }

  // ---------------------------------------------------------------- integer ids to random ids

  datatype IntRow = IntRow(id: int, attrs: Attrs, notes: string)

  datatype IntLink = IntLink(product: Id, vehicle: int, notes: string)

  /** A product fits a vehicle, with the notes of the link, before and after. */
  ghost predicate FitsBefore(catalog: seq<IntRow>, links: seq<IntLink>, product: Id, v: Vehicle, notes: string)
  {
    exists i, j :: LinkSays(catalog, links, i, j, product, v, notes)
  }

  /** The same vehicle, with the market filled in if there was none. */
  predicate MarketFilled(a: Attrs, b: Attrs)
  {
    b == a.(market := if a.market == "" then "nigeria" else a.market)
  }

  ghost predicate LinkSays(catalog: seq<IntRow>, links: seq<IntLink>, i: int, j: int, product: Id, v: Vehicle,
                           notes: string)
  {
    && 0 <= i < |links| && 0 <= j < |catalog| && links[i].vehicle == catalog[j].id
    && links[i].product == product && links[i].notes == notes
    && v.notes == catalog[j].notes && MarketFilled(catalog[j].attrs, v.attrs)
  }

  ghost predicate FitsAfter(catalog: seq<Entry>, links: map<(Id, Id), string>, product: Id, v: Vehicle, notes: string)
  {
    exists j :: 0 <= j < |catalog| && RowSays(catalog[j], links, product, v, notes)
  }

  ghost predicate RowSays(e: Entry, links: map<(Id, Id), string>, product: Id, v: Vehicle, notes: string)
  {
    (product, e.id) in links && links[(product, e.id)] == notes && v == Vehicle(e.attrs, e.notes)
  }

  predicate Resolves(catalog: seq<IntRow>, l: IntLink)
  {
    exists j :: 0 <= j < |catalog| && catalog[j].id == l.vehicle
  }

  function CountResolving(catalog: seq<IntRow>, links: seq<IntLink>): nat
  {
    if links == [] then 0
    else
      var n := |links| - 1;
      CountResolving(catalog, links[..n]) + if Resolves(catalog, links[n]) then 1 else 0
  }

  ghost predicate Rekeyed(catalog: seq<IntRow>, newIds: seq<Id>, newCatalog: seq<Entry>)
    requires |newIds| == |catalog|
  {
    && |newCatalog| == |catalog|
    && forall i :: 0 <= i < |catalog| ==>
         && newCatalog[i].id == newIds[i] && newCatalog[i].notes == catalog[i].notes
         && MarketFilled(catalog[i].attrs, newCatalog[i].attrs)
  }

  ghost predicate IdMapOk(catalog: seq<IntRow>, newIds: seq<Id>, idMap: map<int, Id>, n: nat)
    requires |newIds| == |catalog| && n <= |catalog|
  {
    && (forall k :: 0 <= k < n ==> catalog[k].id in idMap && idMap[catalog[k].id] == newIds[k])
    && (forall id :: id in idMap ==> exists k :: 0 <= k < n && catalog[k].id == id)
  }

  method RekeyCatalog(catalog: seq<IntRow>, newIds: seq<Id>) returns (newCatalog: seq<Entry>, idMap: map<int, Id>)
    requires |newIds| == |catalog|
    requires forall i, j :: 0 <= i < j < |catalog| ==> catalog[i].id != catalog[j].id
    ensures Rekeyed(catalog, newIds, newCatalog)
    ensures IdMapOk(catalog, newIds, idMap, |catalog|)
  {
    idMap := map[];
    newCatalog := [];
    for i := 0 to |catalog|
      invariant |newCatalog| == i
      invariant forall k :: 0 <= k < i ==>
        newCatalog[k] == Entry(newIds[k], Defaulted(catalog[k].attrs), catalog[k].notes)
      invariant IdMapOk(catalog, newIds, idMap, i)
    {
      idMap := idMap[catalog[i].id := newIds[i]];
      newCatalog := newCatalog + [Entry(newIds[i], Defaulted(catalog[i].attrs), catalog[i].notes)];
    }
  }

  /** The rows of the new junction table that the first n old links account for. */
  ghost predicate LinksDone(catalog: seq<IntRow>, newIds: seq<Id>, links: seq<IntLink>, newLinks: map<(Id, Id),
                            string>, n: nat)
    requires |newIds| == |catalog| && n <= |links|
  {
    && (forall i, j :: 0 <= i < n && 0 <= j < |catalog| && links[i].vehicle == catalog[j].id ==>
          Carried(newLinks, links[i], newIds[j]))
    && (forall k :: k in newLinks ==> exists i, j :: ComesFrom(catalog, newIds, links, n, k, i, j))
  }

  ghost predicate Carried(newLinks: map<(Id, Id), string>, l: IntLink, id: Id)
  {
    (l.product, id) in newLinks && newLinks[(l.product, id)] == l.notes
  }

  ghost predicate ComesFrom(catalog: seq<IntRow>, newIds: seq<Id>, links: seq<IntLink>, n: nat, k: (Id, Id), i: int,
                            j: int)
    requires |newIds| == |catalog| && n <= |links|
  {
    0 <= i < n && 0 <= j < |catalog| && links[i].vehicle == catalog[j].id && k == (links[i].product, newIds[j])
  }

  ghost predicate PrimaryKeys(catalog: seq<IntRow>, newIds: seq<Id>, links: seq<IntLink>)
    requires |newIds| == |catalog|
  {
    && (forall i, j :: 0 <= i < j < |catalog| ==> catalog[i].id != catalog[j].id && newIds[i] != newIds[j])
    && (forall i, j :: 0 <= i < j < |links| ==>
          links[i].product != links[j].product || links[i].vehicle != links[j].vehicle)
  }

  lemma LinkIsNew(catalog: seq<IntRow>, newIds: seq<Id>, links: seq<IntLink>, newLinks: map<(Id, Id), string>, n: nat,
                  j: nat)
    requires |newIds| == |catalog| && n < |links| && j < |catalog|
    requires PrimaryKeys(catalog, newIds, links) && LinksDone(catalog, newIds, links, newLinks, n)
    requires links[n].vehicle == catalog[j].id
    ensures (links[n].product, newIds[j]) !in newLinks
    ensures LinksDone(catalog, newIds, links, newLinks[(links[n].product, newIds[j]) := links[n].notes], n + 1)
  {
    var key := (links[n].product, newIds[j]);
    forall i, x ensures !ComesFrom(catalog, newIds, links, n, key, i, x) {
      assert 0 <= x < |catalog| && newIds[x] == newIds[j] ==> x == j;
    }
    var after := newLinks[key := links[n].notes];
    forall i, x | 0 <= i < n + 1 && 0 <= x < |catalog| && links[i].vehicle == catalog[x].id
      ensures Carried(after, links[i], newIds[x])
    {
      if i < n { assert Carried(newLinks, links[i], newIds[x]); } else { assert x == j; }
    }
    var m := n + 1;
    forall k | k in after ensures exists i, x :: ComesFrom(catalog, newIds, links, m, k, i, x) {
      if k == key {
        assert ComesFrom(catalog, newIds, links, m, k, n, j);
      } else {
        var i, x :| ComesFrom(catalog, newIds, links, n, k, i, x);
        assert ComesFrom(catalog, newIds, links, m, k, i, x);
      }
    }
  }

  lemma LinkDangles(catalog: seq<IntRow>, newIds: seq<Id>, links: seq<IntLink>, newLinks: map<(Id, Id), string>, n: nat)
    requires |newIds| == |catalog| && n < |links|
    requires LinksDone(catalog, newIds, links, newLinks, n) && !Resolves(catalog, links[n])
    ensures LinksDone(catalog, newIds, links, newLinks, n + 1)
  {
    var m := n + 1;
    forall k | k in newLinks ensures exists i, j :: ComesFrom(catalog, newIds, links, m, k, i, j) {
      var i, j :| ComesFrom(catalog, newIds, links, n, k, i, j);
      assert ComesFrom(catalog, newIds, links, m, k, i, j);
    }
  }

  lemma FitsPreserved(catalog: seq<IntRow>, newIds: seq<Id>, links: seq<IntLink>, newCatalog: seq<Entry>,
                      newLinks: map<(Id, Id), string>,
                      product: Id, v: Vehicle, notes: string)
    requires |newIds| == |catalog| && PrimaryKeys(catalog, newIds, links)
    requires Rekeyed(catalog, newIds, newCatalog) && LinksDone(catalog, newIds, links, newLinks, |links|)
    ensures FitsAfter(newCatalog, newLinks, product, v, notes) <==> FitsBefore(catalog, links, product, v, notes)
  {
    if i, j :| LinkSays(catalog, links, i, j, product, v, notes) {
      assert Carried(newLinks, links[i], newIds[j]);
      assert RowSays(newCatalog[j], newLinks, product, v, notes);
    }
    if j :| 0 <= j < |newCatalog| && RowSays(newCatalog[j], newLinks, product, v, notes) {
      var i, x :| ComesFrom(catalog, newIds, links, |links|, (product, newIds[j]), i, x);
      assert x == j;
      assert Carried(newLinks, links[i], newIds[j]);
      assert LinkSays(catalog, links, i, j, product, v, notes);
    }
  }

  /** Re-keying the catalog preserves which product fits which vehicle, with what notes, and the number of
      links that resolve; links to no vehicle are dropped. The requires are the tables' primary keys. */
  method MigrateVehicleCompatibilityIntToUuid(catalog: seq<IntRow>, links: seq<IntLink>, newIds: seq<Id>)
    returns (newCatalog: seq<Entry>, newLinks: map<(Id, Id), string>)
    requires |newIds| == |catalog| && PrimaryKeys(catalog, newIds, links)
    ensures Rekeyed(catalog, newIds, newCatalog)
    ensures forall product, v, notes ::
      FitsAfter(newCatalog, newLinks, product, v, notes) <==> FitsBefore(catalog, links, product, v, notes)
    ensures |newLinks| == CountResolving(catalog, links)
  {
    var idMap: map<int, Id>;
    newCatalog, idMap := RekeyCatalog(catalog, newIds);
    newLinks := map[];
    for n := 0 to |links|
      invariant |newLinks| == CountResolving(catalog, links[..n])
      invariant LinksDone(catalog, newIds, links, newLinks, n)
    {
      var link := links[n];
      assert links[..n + 1][..n] == links[..n];
      if link.vehicle !in idMap {
        LinkDangles(catalog, newIds, links, newLinks, n);
        continue;
      }
      ghost var j :| 0 <= j < |catalog| && catalog[j].id == link.vehicle;
      LinkIsNew(catalog, newIds, links, newLinks, n, j);
      var key := (link.product, idMap[link.vehicle]);
      if key !in newLinks {
        newLinks := newLinks[key := link.notes];
      }
    }
    assert links[..|links|] == links;
    forall product, v, notes
      ensures FitsAfter(newCatalog, newLinks, product, v, notes) <==> FitsBefore(catalog, links, product, v, notes)
    {
      FitsPreserved(catalog, newIds, links, newCatalog, newLinks, product, v, notes);
    }
  }
}
