/**
 * The spreadsheet upload: find the header row among the first rows of the
 * sheet, read every data row with forgiving column names, turn it into a
 * dispute with defaults and the triage rules, drop the rows whose ticket id
 * is already stored, and insert the rest in one ordered bulk insertion.
 *
 * Reading the workbook and serialising rows to JSON belong to the spreadsheet
 * library; they are inputs here (`Workbook`). The wall clock and the random
 * number generator are the parameters `clock` and `rand`.
 */
module Upload {
  import opened Wrappers
  import opened Values
  import opened DisputeModel
  import opened Triage
  import opened Store
  import Text

  /** A parsed data row: the header text of each non-empty cell with its value, in column order. */
  type Row = seq<(string, Value)>

  /** A draw of `Math.floor(Math.random() * 1000)`. */
  type Draw = x: nat | x < 1000

  // ---------------------------------------------------------------------
  // Finding the header row
  // ---------------------------------------------------------------------

  const MaxHeaderScan := 20
  const TicketIdLabel := "ticket id"
  const AmountLabel := "amount"
  const DaysOpenLabel := "days open"

  /** The header test applied to the JSON text of a raw row, lower-cased. */
  predicate IsHeaderLine(line: string) {
    var l := Text.Lower(line);
    Text.Contains(l, TicketIdLabel) && (Text.Contains(l, AmountLabel) || Text.Contains(l, DaysOpenLabel))
  }

  /** The header row among the first twenty rows: the first that passes the test, if any. */
  function HeaderIndex(lines: seq<string>): (r: Option<nat>)
    ensures r.Some? ==> r.value < |lines| && r.value < MaxHeaderScan && IsHeaderLine(lines[r.value])
    ensures r.Some? ==> forall j :: 0 <= j < r.value ==> !IsHeaderLine(lines[j])
    ensures r.None? ==> forall j :: 0 <= j < |lines| && j < MaxHeaderScan ==> !IsHeaderLine(lines[j])
  {
    HeaderFrom(lines, 0)
  }

  function HeaderFrom(lines: seq<string>, i: nat): (r: Option<nat>)
    requires forall j :: 0 <= j < i && j < |lines| ==> !IsHeaderLine(lines[j])
    ensures r.Some? ==> i <= r.value < |lines| && r.value < MaxHeaderScan && IsHeaderLine(lines[r.value])
    ensures r.Some? ==> forall j :: 0 <= j < r.value ==> !IsHeaderLine(lines[j])
    ensures r.None? ==> forall j :: 0 <= j < |lines| && j < MaxHeaderScan ==> !IsHeaderLine(lines[j])
    decreases MaxHeaderScan - i
  {
    if i >= |lines| || i >= MaxHeaderScan then None
    else if IsHeaderLine(lines[i]) then Some(i)
    else HeaderFrom(lines, i + 1)
  }

  /** The row the data is read from: the header row found, or the first row. */
  function HeaderRow(lines: seq<string>): nat {
    var h := HeaderIndex(lines);
    if h.Some? then h.value else 0
  }

  /** One step of the scan: the row at `i` is the header, or the search goes on from the next row. */
  lemma HeaderFromStep(lines: seq<string>, i: nat)
    requires i < |lines| && i < MaxHeaderScan
    requires forall j :: 0 <= j < i ==> !IsHeaderLine(lines[j])
    ensures IsHeaderLine(lines[i]) ==> HeaderFrom(lines, i) == Some(i)
    ensures !IsHeaderLine(lines[i]) ==> HeaderFrom(lines, i) == HeaderFrom(lines, i + 1)
  {
  }

  /** The scan over the first twenty rows, stopping at the first header. */
  method FindHeaderRow(lines: seq<string>) returns (index: nat, found: bool)
    ensures found <==> HeaderIndex(lines).Some?
    ensures index == HeaderRow(lines)
    ensures found ==> index < |lines| && IsHeaderLine(lines[index])
    ensures !found ==> index == 0
  {
    index, found := 0, false;
    var i := 0;
    while i < |lines| && i < MaxHeaderScan
      invariant 0 <= i <= |lines|
      invariant !found && index == 0
      invariant forall j :: 0 <= j < i ==> !IsHeaderLine(lines[j])
      invariant HeaderFrom(lines, i) == HeaderIndex(lines)
    {
      HeaderFromStep(lines, i);
      if IsHeaderLine(lines[i]) {
        index, found := i, true;
        break;
      }
      i := i + 1;
    }
  }

  // ---------------------------------------------------------------------
  // Reading a cell by one of several column names
  // ---------------------------------------------------------------------

  /** The value stored under exactly `key`. */
  function Lookup(row: Row, key: string): (r: Option<Value>)
    ensures r.Some? <==> exists i :: 0 <= i < |row| && row[i].0 == key
    ensures r.Some? ==> exists i :: 0 <= i < |row| && row[i].0 == key && row[i].1 == r.value
  {
    if row == [] then None
    else if row[0].0 == key then Some(row[0].1)
    else
      var r := Lookup(row[1..], key);
      assert forall i :: 1 <= i < |row| ==> row[i] == row[1..][i - 1];
      r
  }

  /** `find`: the position of the first element that matches. */
  function FirstIndex<T>(s: seq<T>, matches: T -> bool): (r: Option<nat>)
    ensures r.Some? ==> r.value < |s| && matches(s[r.value])
    ensures r.Some? ==> forall j :: 0 <= j < r.value ==> !matches(s[j])
    ensures r.None? ==> forall j :: 0 <= j < |s| ==> !matches(s[j])
  {
    if s == [] then None
    else if matches(s[0]) then Some(0)
    else
      var r := FirstIndex(s[1..], matches);
      assert forall j :: 1 <= j < |s| ==> s[j] == s[1..][j - 1];
      if r.Some? then Some(r.value + 1) else None
  }

  /** `rowKeys.find(k => k.trim() === key)`: the first header equal to `key` once trimmed. */
  function FirstTrimmed(row: Row, key: string): (r: Option<nat>)
    ensures r.Some? ==> r.value < |row| && Text.Trim(row[r.value].0) == key
    ensures r.Some? ==> forall j :: 0 <= j < r.value ==> Text.Trim(row[j].0) != key
    ensures r.None? ==> forall j :: 0 <= j < |row| ==> Text.Trim(row[j].0) != key
  {
    FirstIndex(row, (c: (string, Value)) => Text.Trim(c.0) == key)
  }

  /** `rowKeys.find(k => k.toLowerCase().trim() === key.toLowerCase())`. */
  function FirstLowered(row: Row, key: string): (r: Option<nat>)
    ensures r.Some? ==> r.value < |row| && Text.Trim(Text.Lower(row[r.value].0)) == Text.Lower(key)
    ensures r.Some? ==> forall j :: 0 <= j < r.value ==> Text.Trim(Text.Lower(row[j].0)) != Text.Lower(key)
    ensures r.None? ==> forall j :: 0 <= j < |row| ==> Text.Trim(Text.Lower(row[j].0)) != Text.Lower(key)
  {
    FirstIndex(row, (c: (string, Value)) => Text.Trim(Text.Lower(c.0)) == Text.Lower(key))
  }

  /**
   * One column name: the exact header, then the first header equal to it
   * once trimmed, then the first equal to it once lower-cased and trimmed. A
   * header found in the second or third step counts only if it is non-empty.
   */
  function Resolve(row: Row, key: string): (r: Option<Value>)
    ensures r.Some? ==> exists i :: (0 <= i < |row| && row[i].1 == r.value &&
      (row[i].0 == key || Text.Trim(row[i].0) == key || Text.Trim(Text.Lower(row[i].0)) == Text.Lower(key)))
    ensures key != "" ==> (r.None? <==> forall i :: 0 <= i < |row| ==>
      row[i].0 != key && Text.Trim(row[i].0) != key && Text.Trim(Text.Lower(row[i].0)) != Text.Lower(key))
    ensures Lookup(row, key).Some? ==> r == Lookup(row, key)
    ensures Lookup(row, key).None? && FirstTrimmed(row, key).Some? && row[FirstTrimmed(row, key).value].0 != "" ==>
      r == Some(row[FirstTrimmed(row, key).value].1)
    ensures Lookup(row, key).None? && !(FirstTrimmed(row, key).Some? && row[FirstTrimmed(row, key).value].0 != "") ==>
      r == (if FirstLowered(row, key).Some? && row[FirstLowered(row, key).value].0 != ""
            then Some(row[FirstLowered(row, key).value].1) else None)
  {
    var exact := Lookup(row, key);
    if exact.Some? then exact
    else
      var trimmed := FirstTrimmed(row, key);
      if trimmed.Some? && row[trimmed.value].0 != "" then Some(row[trimmed.value].1)
      else
        var lowered := FirstLowered(row, key);
        if lowered.Some? && row[lowered.value].0 != "" then Some(row[lowered.value].1)
        else None
  }

  /** `getValue(row, ...keys)`: the value under the first column name that resolves. */
  function GetValue(row: Row, keys: seq<string>): Option<Value> {
    var i := FirstIndex(keys, k => Resolve(row, k).Some?);
    if i.Some? then Resolve(row, keys[i.value]) else None
  }

  /** The column names are tried in order and the first that resolves wins; none resolving gives nothing. */
  lemma GetValueFirstAlias(row: Row, keys: seq<string>)
    ensures var r := GetValue(row, keys);
      && (r.None? <==> forall i :: 0 <= i < |keys| ==> Resolve(row, keys[i]).None?)
      && (r.Some? ==> exists i :: (0 <= i < |keys| && Resolve(row, keys[i]) == r &&
            forall j :: 0 <= j < i ==> Resolve(row, keys[j]).None?))
  {
  }

  /** A cell under the first column name always wins, whatever the other names find. */
  lemma {:induction false} ExactHeaderWins(row: Row, keys: seq<string>, v: Value)
    requires keys != [] && Lookup(row, keys[0]) == Some(v)
    ensures GetValue(row, keys) == Some(v)
  {
    GetValueFirstAlias(row, keys);
  }

  /** A header that differs from a column name only in case and surrounding blanks is still found. */
  lemma HeaderFoundIgnoringCase(row: Row, keys: seq<string>, i: nat, k: nat)
    requires k < |keys| && keys[k] != "" && i < |row|
    requires Text.Trim(Text.Lower(row[i].0)) == Text.Lower(keys[k])
    ensures GetValue(row, keys).Some?
  {
    GetValueFirstAlias(row, keys);
    assert Resolve(row, keys[k]).Some?;
  }

  // The column names each field is read from, in the order they are tried.
  const AmountKeys := ["Amount (in INR)", "Amount", "amount"]
  const DaysOpenKeys := ["Days Open", "daysOpen", "DaysOpen"]
  const PriorityKeys := ["SLA Priority", "Priority", "priority"]
  const StageKeys := ["Stage", "stage"]
  const PresentStageKeys := ["Present Stage", "presentStage"]
  const DaysInStageKeys := ["Days in Present Stage", "daysInPresentStage", "DaysInPresentStage"]
  const StatusKeys := ["Status", "status"]
  const TicketIdKeys := ["Ticket ID", "ticketId", "TicketId"]
  const CategoryKeys := ["Issue Category", "issueCategory", "IssueCategory"]
  const ChannelKeys := ["Channel", "channel", "Chanel"]

  const UnknownUser := "UNKNOWN"
  const UnspecifiedCategory := "Unspecified"
  const WebChannel := "Web"
  const WebPrefix := "WEB-"

  // ---------------------------------------------------------------------
  // Turning a row into a dispute
  // ---------------------------------------------------------------------

  /** The ticket id made up for a row without one: `WEB-<time>-<draw>-<row index>`. */
  function SyntheticId(now: nat, draw: Draw, index: nat): (id: string)
    ensures |id| > |WebPrefix| && id[..|WebPrefix|] == WebPrefix
  {
    WebPrefix + Text.NatToString(now) + "-" + Text.NatToString(draw) + "-" + Text.NatToString(index)
  }

  /** Made-up ids of different rows differ, whatever the clock and the draws, since the row index ends the id. */
  lemma {:induction false} SyntheticIdsDistinct(n1: nat, d1: Draw, i1: nat, n2: nat, d2: Draw, i2: nat)
    requires i1 != i2
    ensures SyntheticId(n1, d1, i1) != SyntheticId(n2, d2, i2)
  {
    var t1, t2 := Text.NatToString(i1), Text.NatToString(i2);
    var p1 := WebPrefix + Text.NatToString(n1) + "-" + Text.NatToString(d1);
    var p2 := WebPrefix + Text.NatToString(n2) + "-" + Text.NatToString(d2);
    assert SyntheticId(n1, d1, i1) == p1 + ['-'] + t1;
    assert SyntheticId(n2, d2, i2) == p2 + ['-'] + t2;
    if p1 + ['-'] + t1 == p2 + ['-'] + t2 {
      Text.LastSeparatorSplit(p1, t1, p2, t2, '-');
      Text.NatToStringInjective(i1, i2);
    }
  }

  /**
   * `determineAction(stage, priority)` on cell values. Priority "L0" is
   * compared strictly, so only the text "L0" is urgent; past that the stage
   * must be text, and a stage cell of another type makes the call throw,
   * which drops the row (`None`).
   */
  function ActionFor(stage: Value, priority: Value): (r: Option<string>)
    ensures r.None? <==> priority != Str("L0") && !stage.Str?
    ensures stage.Str? && priority.Str? ==> r == Some(DetermineAction(stage.s, priority.s))
    ensures priority == Str("L0") ==> r == Some(UrgentAction)
    ensures priority != Str("L0") && stage.Str? ==> r == Some(StageAction(stage.s))
  {
    if priority == Str("L0") then Some(UrgentAction)
    else if stage.Str? then Some(StageAction(stage.s))
    else None
  }

  /** The cells of one row, each read by `getValue` under its field's column names. */
  datatype Cells = Cells(
    amount: Option<Value>,
    daysOpen: Option<Value>,
    priority: Option<Value>,
    stage: Option<Value>,
    presentStage: Option<Value>,
    daysInStage: Option<Value>,
    status: Option<Value>,
    ticketId: Option<Value>,
    category: Option<Value>,
    channel: Option<Value>)

  function ReadCells(row: Row): Cells {
    Cells(GetValue(row, AmountKeys), GetValue(row, DaysOpenKeys), GetValue(row, PriorityKeys),
      GetValue(row, StageKeys), GetValue(row, PresentStageKeys), GetValue(row, DaysInStageKeys),
      GetValue(row, StatusKeys), GetValue(row, TicketIdKeys), GetValue(row, CategoryKeys), GetValue(row, ChannelKeys))
  }

  /**
   * The plain object built from the cells of a non-empty row: a falsy cell
   * takes its default, a missing priority is computed by the triage rules,
   * the action always comes from the rule table, and the user is unknown.
   * `None` when the action cannot be computed (the call throws). `index` is
   * the row's position, `now` and `draw` the clock and the random draw taken
   * while processing it.
   */
  function BuildDraft(c: Cells, index: nat, now: nat, draw: Draw, parse: string -> Num): (r: Option<Draft>)
    ensures var amount, daysOpen := NumberOrZero(c.amount, parse), NumberOrZero(c.daysOpen, parse);
      r.None? <==> ActionFor(Or(c.stage, Str(NewStage)),
        Or(c.priority, Str(PriorityName(CalculatePriority(daysOpen, amount))))).None?
    ensures r.Some? ==> r.value.userId == Some(Str(UnknownUser))
    ensures r.Some? ==> r.value.amount == Some(NumberOrZero(c.amount, parse))
    ensures r.Some? ==> r.value.daysOpen == Some(NumberOrZero(c.daysOpen, parse))
    ensures r.Some? ==> r.value.daysInPresentStage == Some(NumberOrZero(c.daysInStage, parse))
    ensures r.Some? ==> (r.value.priority ==
      Some(Or(c.priority, Str(PriorityName(CalculatePriority(r.value.daysOpen.value, r.value.amount.value))))))
    ensures r.Some? ==> r.value.stage == Some(Or(c.stage, Str(NewStage)))
    ensures r.Some? ==> r.value.presentStage == Some(Or(c.presentStage, Str("")))
    ensures r.Some? ==> r.value.status == Some(Or(c.status, Str(OpenStatus)))
    ensures r.Some? ==> r.value.ticketId == Some(Or(c.ticketId, Str(SyntheticId(now, draw, index))))
    ensures r.Some? ==> r.value.issueCategory == Some(Or(c.category, Str(UnspecifiedCategory)))
    ensures r.Some? ==> r.value.channel == Some(Or(c.channel, Str(WebChannel)))
    ensures r.Some? ==> r.value.recommendedAction == Some(Str(ActionFor(r.value.stage.value, r.value.priority.value).value))
    ensures r.Some? && r.value.stage.value.Str? && r.value.priority.value.Str? ==>
      r.value.recommendedAction == Some(Str(DetermineAction(r.value.stage.value.s, r.value.priority.value.s)))
    ensures r.Some? ==> Truthy(r.value.ticketId) && Truthy(r.value.issueCategory) && Truthy(r.value.channel)
    ensures r.Some? ==> Truthy(r.value.status) && Truthy(r.value.stage)
  {
    var amount := NumberOrZero(c.amount, parse);
    var daysOpen := NumberOrZero(c.daysOpen, parse);
    var priority := Or(c.priority, Str(PriorityName(CalculatePriority(daysOpen, amount))));
    var stage := Or(c.stage, Str(NewStage));
    var presentStage := Or(c.presentStage, Str(""));
    var daysInStage := NumberOrZero(c.daysInStage, parse);
    var action := ActionFor(stage, priority);
    if action.None? then None
    else
      var status := Or(c.status, Str(OpenStatus));
      var ticketId := Or(c.ticketId, Str(SyntheticId(now, draw, index)));
      var category := Or(c.category, Str(UnspecifiedCategory));
      var channel := Or(c.channel, Str(WebChannel));
      Some(Draft(Some(ticketId), Some(Str(UnknownUser)), Some(amount), Some(category), Some(channel), Some(status),
        Some(priority), Some(stage), Some(presentStage), Some(daysOpen), Some(daysInStage), Some(Str(action.value))))
  }

  /** One data row: an empty row is skipped, any other is built from its cells. */
  function NormaliseRow(row: Row, index: nat, now: nat, draw: Draw, parse: string -> Num): (r: Option<Draft>)
    ensures row == [] ==> r.None?
    ensures row != [] ==> r == BuildDraft(ReadCells(row), index, now, draw, parse)
  {
    if row == [] then None else BuildDraft(ReadCells(row), index, now, draw, parse)
  }

  /**
   * What the schema can still refuse in an uploaded row: the required text
   * fields are always filled, so only the priority text and the three
   * numbers decide.
   */
  lemma UploadedRowAdmissible(c: Cells, index: nat, now: nat, draw: Draw, parse: string -> Num)
    requires BuildDraft(c, index, now, draw, parse).Some?
    ensures var d := BuildDraft(c, index, now, draw, parse).value;
      Admissible(d) <==> (ParsePriority(ToText(d.priority.value)).Some? && d.amount.value.Finite?
        && d.daysOpen.value.Finite? && d.daysInPresentStage.value.Finite?)
  {
    var d := BuildDraft(c, index, now, draw, parse).value;
    TruthyTextNonEmpty(d.ticketId.value);
    TruthyTextNonEmpty(d.userId.value);
    TruthyTextNonEmpty(d.issueCategory.value);
    TruthyTextNonEmpty(d.channel.value);
  }

  /** A row without a priority cell is triaged, and its computed tier always passes the enumeration. */
  lemma ComputedPriorityAccepted(c: Cells, index: nat, now: nat, draw: Draw, parse: string -> Num)
    requires BuildDraft(c, index, now, draw, parse).Some? && !Truthy(c.priority)
    ensures var d := BuildDraft(c, index, now, draw, parse).value;
      ParsePriority(ToText(d.priority.value)) == Some(CalculatePriority(d.daysOpen.value, d.amount.value))
  {
  }

  /** `xs.map(f).filter(Boolean)` where `f` also receives the position: the results that are present, in order. */
  function FilterMap<T, U>(xs: seq<T>, f: (nat, T) -> Option<U>): (r: seq<U>)
    ensures |r| <= |xs|
  {
    if xs == [] then []
    else
      var n := |xs| - 1;
      FilterMap(xs[..n], f) + (if f(n, xs[n]).Some? then [f(n, xs[n]).value] else [])
  }

  /** The positions `FilterMap` keeps, in increasing order. */
  function KeptPositions<T, U>(xs: seq<T>, f: (nat, T) -> Option<U>): (pos: seq<nat>)
    ensures forall k :: 0 <= k < |pos| ==> pos[k] < |xs|
  {
    if xs == [] then []
    else
      var n := |xs| - 1;
      KeptPositions(xs[..n], f) + (if f(n, xs[n]).Some? then [n] else [])
  }

  /**
   * `FilterMap` keeps exactly the present results, in the order of their
   * positions: its `k`-th element is the result at the `k`-th kept position.
   */
  lemma {:induction false} FilterMapInOrder<T, U>(xs: seq<T>, f: (nat, T) -> Option<U>)
    ensures var r, pos := FilterMap(xs, f), KeptPositions(xs, f);
      && |pos| == |r|
      && (forall k, l :: 0 <= k < l < |pos| ==> pos[k] < pos[l])
      && (forall i :: 0 <= i < |xs| ==> (i in pos <==> f(i, xs[i]).Some?))
      && (forall k :: 0 <= k < |r| ==> f(pos[k], xs[pos[k]]) == Some(r[k]))
  {
    if xs != [] {
      var n := |xs| - 1;
      FilterMapInOrder(xs[..n], f);
      var r0, p0 := FilterMap(xs[..n], f), KeptPositions(xs[..n], f);
      assert forall i :: 0 <= i < n ==> xs[..n][i] == xs[i];
      if f(n, xs[n]).Some? {
        assert FilterMap(xs, f) == r0 + [f(n, xs[n]).value];
        assert KeptPositions(xs, f) == p0 + [n];
      } else {
        assert FilterMap(xs, f) == r0;
        assert KeptPositions(xs, f) == p0;
      }
    }
  }

  /** Every present result is kept, and nothing else is. */
  lemma FilterMapMembers<T, U>(xs: seq<T>, f: (nat, T) -> Option<U>)
    ensures forall u :: u in FilterMap(xs, f) <==> exists i :: 0 <= i < |xs| && f(i, xs[i]) == Some(u)
    ensures FilterMap(xs, f) == [] <==> forall i :: 0 <= i < |xs| ==> f(i, xs[i]).None?
  {
    FilterMapInOrder(xs, f);
    var r, pos := FilterMap(xs, f), KeptPositions(xs, f);
    forall u | u in r ensures exists i :: 0 <= i < |xs| && f(i, xs[i]) == Some(u) {
      var k :| 0 <= k < |r| && r[k] == u;
      assert f(pos[k], xs[pos[k]]) == Some(u);
    }
    forall i | 0 <= i < |xs| && f(i, xs[i]).Some? ensures f(i, xs[i]).value in r {
      var k :| 0 <= k < |pos| && pos[k] == i;
      assert f(pos[k], xs[pos[k]]) == Some(r[k]);
    }
  }

  /**
   * `jsonData.map(...).filter(Boolean)`: the rows that produce a dispute, in
   * order. Row `i` is processed at `clock(i)` with the draw `rand(i)`.
   */
  function NormaliseRows(rows: seq<Row>, clock: nat -> nat, rand: nat -> Draw, parse: string -> Num): (r: seq<Draft>)
    ensures |r| <= |rows|
  {
    FilterMap(rows, (i: nat, row: Row) => NormaliseRow(row, i, clock(i), rand(i), parse))
  }

  // ---------------------------------------------------------------------
  // Dropping rows already stored
  // ---------------------------------------------------------------------

  /** The text the store would keep as a draft's ticket id. */
  function StoredId(d: Draft): Option<string> {
    if d.ticketId.Some? then Some(ToText(d.ticketId.value)) else None
  }

  /** The ticket ids the `$in` query asks for; the store converts each one to text. */
  function QueryIds(drafts: seq<Draft>): (ids: set<string>)
    ensures forall k :: 0 <= k < |drafts| && StoredId(drafts[k]).Some? ==> StoredId(drafts[k]).value in ids
  {
    set k | 0 <= k < |drafts| && drafts[k].ticketId.Some? :: ToText(drafts[k].ticketId.value)
  }

  /** Whether the filter keeps a draft: it does unless its stored id is already taken. */
  predicate IsNew(d: Draft, existing: set<string>) {
    !(StoredId(d).Some? && StoredId(d).value in existing)
  }

  /** The drafts whose ticket id, once converted to text as the store does, is not among `existing`. */
  function DropExisting(drafts: seq<Draft>, existing: set<string>): (r: seq<Draft>)
    ensures |r| <= |drafts|
    ensures forall d :: d in r <==> d in drafts && IsNew(d, existing)
  {
    if drafts == [] then []
    else
      assert drafts == [drafts[0]] + drafts[1..];
      (if IsNew(drafts[0], existing) then [drafts[0]] else []) + DropExisting(drafts[1..], existing)
  }

  /** Filtering a draft followed by more drafts: the draft if it is new, then the rest filtered. */
  lemma DropExistingCons(d: Draft, rest: seq<Draft>, existing: set<string>)
    ensures DropExisting([d] + rest, existing) == (if IsNew(d, existing) then [d] else []) + DropExisting(rest, existing)
  {
    assert ([d] + rest)[1..] == rest;
  }

  /** The filter works draft by draft: filtering a concatenation concatenates the filtered parts, so the kept drafts stay in order. */
  lemma {:induction false} DropExistingAppend(a: seq<Draft>, b: seq<Draft>, existing: set<string>)
    ensures DropExisting(a + b, existing) == DropExisting(a, existing) + DropExisting(b, existing)
  {
    if a == [] {
      assert a + b == b;
    } else {
      assert a == [a[0]] + a[1..];
      assert a + b == [a[0]] + (a[1..] + b);
      DropExistingCons(a[0], a[1..] + b, existing);
      DropExistingCons(a[0], a[1..], existing);
      DropExistingAppend(a[1..], b, existing);
    }
  }

  /** Every copy of a new draft is kept, and no copy of another. */
  lemma {:induction false} DropExistingCopies(drafts: seq<Draft>, existing: set<string>)
    ensures forall d :: multiset(DropExisting(drafts, existing))[d] == if IsNew(d, existing) then multiset(drafts)[d] else 0
  {
    if drafts != [] {
      DropExistingCopies(drafts[1..], existing);
      assert drafts == [drafts[0]] + drafts[1..];
      assert multiset(drafts) == multiset{drafts[0]} + multiset(drafts[1..]);
    }
  }

  /** A single draft is kept exactly when its id is new. */
  lemma DropExistingSingle(d: Draft, existing: set<string>)
    ensures DropExisting([d], existing) == if IsNew(d, existing) then [d] else []
  {
    assert [d][1..] == [];
  }

  /**
   * Asking the store only for the ids of the batch loses nothing: filtering
   * against the ids it returns is filtering against everything stored.
   */
  lemma {:induction false} QueryIdsSuffice(drafts: seq<Draft>, ids: set<string>, stored: set<string>)
    requires forall k :: 0 <= k < |drafts| && StoredId(drafts[k]).Some? ==> StoredId(drafts[k]).value in ids
    ensures DropExisting(drafts, ids * stored) == DropExisting(drafts, stored)
  {
    if drafts != [] {
      assert forall k :: 1 <= k < |drafts| ==> drafts[1..][k - 1] == drafts[k];
      QueryIdsSuffice(drafts[1..], ids, stored);
    }
  }

  /** The filter as the source writes it: `Set.has` tells the number 7 from the text "7". */
  function DropExistingAsWritten(drafts: seq<Draft>, existing: set<string>): (r: seq<Draft>)
    ensures forall d :: d in r <==> d in drafts && !(d.ticketId.Some? && d.ticketId.value.Str? && d.ticketId.value.s in existing)
  {
    if drafts == [] then []
    else
      assert drafts == [drafts[0]] + drafts[1..];
      var taken := drafts[0].ticketId.Some? && drafts[0].ticketId.value.Str? && drafts[0].ticketId.value.s in existing;
      (if taken then [] else [drafts[0]]) + DropExistingAsWritten(drafts[1..], existing)
  }

  /** A ticket id read as a number is kept by the filter as written although the store holds it as text. */
  lemma NumericTicketIdSlipsThrough(d: Draft)
    requires d.ticketId == Some(Number(Finite(7)))
    ensures StoredId(d) == Some("7")
    ensures DropExistingAsWritten([d], {"7"}) == [d]
    ensures DropExisting([d], {"7"}) == []
  {
    assert Text.NatToString(7) == "7";
  }

  /** Every record that survives the corrected filter has a ticket id the store does not hold. */
  lemma {:induction false} KeptIdsFresh(drafts: seq<Draft>, stored: seq<Dispute>, now: int)
    requires MaterialiseAll(DropExisting(drafts, IdsOf(stored)), now).Some?
    ensures var docs := MaterialiseAll(DropExisting(drafts, IdsOf(stored)), now).value;
      forall k :: 0 <= k < |docs| ==> docs[k].ticketId !in IdsOf(stored)
  {
    var kept := DropExisting(drafts, IdsOf(stored));
    var docs := MaterialiseAll(kept, now).value;
    forall k | 0 <= k < |docs| ensures docs[k].ticketId !in IdsOf(stored) {
      assert Materialise(kept[k], now) == Some(docs[k]);
      assert kept[k] in kept;
    }
  }

  /**
   * With fresh and pairwise distinct ticket ids no record of the batch
   * collides with the store or with an earlier record of the batch.
   */
  lemma FreshBatchNeverCollides(stored: seq<Dispute>, docs: seq<Dispute>)
    requires UniqueIds(docs) && forall k :: 0 <= k < |docs| ==> docs[k].ticketId !in IdsOf(stored)
    ensures forall n :: 0 <= n < |docs| ==> docs[n].ticketId !in IdsOf(stored + docs[..n])
  {
    forall n | 0 <= n < |docs| ensures docs[n].ticketId !in IdsOf(stored + docs[..n]) {
      var t := stored + docs[..n];
      forall i | 0 <= i < |t| ensures t[i].ticketId != docs[n].ticketId {
        if i < |stored| {
          assert t[i].ticketId in IdsOf(stored);
        } else {
          assert t[i] == docs[i - |stored|];
        }
      }
    }
  }

  // ---------------------------------------------------------------------
  // The route
  // ---------------------------------------------------------------------

  /** What the spreadsheet library makes of the uploaded bytes. */
  datatype Workbook =
    | Unreadable
    | NoSheets
      /** The first sheet: the JSON text of each raw row, and the data rows read from a given header row. */
    | Sheet(lines: seq<string>, rowsFrom: nat -> seq<Row>)

  /** The multipart form: a file field or none. */
  datatype UploadForm = NoFile | File(workbook: Workbook)

  datatype UploadResponse =
    | Added(count: nat)
    | BadRequest(error: string)
    | ServerError

  const NoFileError := "No file uploaded"
  const BadFormatError := "Invalid Excel file format"
  const EmptyWorkbookError := "Empty Excel file"
  const NoRowsError := "No valid disputes found in file"

  /** The drafts a sheet produces, read from its header row. */
  function SheetDrafts(lines: seq<string>, rowsFrom: nat -> seq<Row>, clock: nat -> nat, rand: nat -> Draw,
                       parse: string -> Num): seq<Draft>
  {
    NormaliseRows(rowsFrom(HeaderRow(lines)), clock, rand, parse)
  }

  /**
   * How storing the drafts of an upload ends, from the records `before` to
   * the records `after`. The drafts whose ticket id is already stored are left
   * out; if none remains nothing is written and the answer counts zero. A
   * schema failure stores nothing; otherwise the remaining records go in, in
   * order, up to the first one whose ticket id is already stored or taken by
   * an earlier record of the batch (`StopsAt`), and the answer is `Added(n)`
   * exactly when all `n` went in. Fresh, pairwise distinct ids always all go in.
   */
  ghost predicate StoredAsPlanned(before: seq<Dispute>, after: seq<Dispute>, drafts: seq<Draft>, savedAt: int,
                                  resp: UploadResponse)
  {
    var kept := DropExisting(drafts, IdsOf(before));
    var docs := MaterialiseAll(kept, savedAt);
    && (kept == [] ==> resp == Added(0) && after == before)
    && (kept != [] && docs.None? ==> resp == ServerError && after == before)
    && (kept != [] && docs.Some? ==>
          (resp == Added(|kept|) || resp == ServerError)
          && (exists n: nat :: StopsAt(before, docs.value, n) && after == before + docs.value[..n]
                && (resp.Added? <==> n == |kept|))
          && (UniqueIds(docs.value) ==> resp == Added(|kept|)))
  }

  /** Filter the drafts against the stored ids, then insert what is left. */
  method StoreNewDrafts(store: DisputeStore, drafts: seq<Draft>, savedAt: int) returns (resp: UploadResponse)
    requires store.Valid()
    modifies store
    ensures store.Valid()
    ensures StoredAsPlanned(old(store.records), store.records, drafts, savedAt, resp)
  {
    ghost var before := store.records;
    var ids := QueryIds(drafts);
    var existing := store.ExistingIds(ids);
    assert existing == ids * IdsOf(before);
    QueryIdsSuffice(drafts, ids, IdsOf(before));
    var kept := DropExisting(drafts, existing);
    if kept == [] {
      return Added(0);
    }
    var outcome := store.InsertMany(kept, savedAt);
    resp := if outcome.ok then Added(|kept|) else ServerError;
    ghost var docs := MaterialiseAll(kept, savedAt);
    if docs.Some? && UniqueIds(docs.value) {
      KeptIdsFresh(drafts, before, savedAt);
      FreshBatchNeverCollides(before, docs.value);
    }
  }

  /**
   * `POST /api/upload`: the form and workbook checks, the header scan, the
   * row normalisation, the empty-batch check, then storing the drafts.
   * `savedAt` is the store's clock.
   */
  method UploadDisputes(store: DisputeStore, form: UploadForm, clock: nat -> nat, rand: nat -> Draw,
                        parse: string -> Num, savedAt: int) returns (resp: UploadResponse)
    requires store.Valid()
    modifies store
    ensures store.Valid()
    ensures form == NoFile ==> resp == BadRequest(NoFileError) && store.records == old(store.records)
    ensures form == File(Unreadable) ==> resp == BadRequest(BadFormatError) && store.records == old(store.records)
    ensures form == File(NoSheets) ==> resp == BadRequest(EmptyWorkbookError) && store.records == old(store.records)
    ensures form.File? && form.workbook.Sheet? ==>
      var drafts := SheetDrafts(form.workbook.lines, form.workbook.rowsFrom, clock, rand, parse);
      && (drafts == [] ==> resp == BadRequest(NoRowsError) && store.records == old(store.records))
      && (drafts != [] ==> StoredAsPlanned(old(store.records), store.records, drafts, savedAt, resp))
  {
    match form
    case NoFile =>
      return BadRequest(NoFileError);
    case File(Unreadable) =>
      return BadRequest(BadFormatError);
    case File(NoSheets) =>
      return BadRequest(EmptyWorkbookError);
    case File(Sheet(lines, rowsFrom)) =>
      var headerIndex, found := FindHeaderRow(lines);
      var drafts := NormaliseRows(rowsFrom(headerIndex), clock, rand, parse);
      if drafts == [] {
        return BadRequest(NoRowsError);
      }
      resp := StoreNewDrafts(store, drafts, savedAt);
  }
}
