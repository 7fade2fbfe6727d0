/**
 Which tables a check queues for repair.

 The server answers a check with rows, grouped by table: messages about the table
 and then a status. The tool reads them in one loop that remembers the last table
 name, whether its first message was a problem, and the list that the message
 asks for. `QueueFor` says what is to come out, table by table.
 */
module RepairQueue {
  import opened Basics
  import opened Identifiers

  datatype Row = Row(table: string, kind: string, text: string)

  datatype Target = Tables | Rebuild | Views

  datatype Queues = Queues(tables: seq<string>, rebuild: seq<string>, views: seq<string>)

  datatype Options = Options(silent: bool, autoRepair: bool, repairing: bool)

  datatype State = State(
    prev: string,
    foundError: bool,
    tableRebuild: bool,
    target: Target,
    queues: Queues)

  predicate Contains(text: string, t: string) {
    exists i :: 0 <= i <= |text| && t <= text[i..]
  }

  function Push(q: Queues, target: Target, name: string): Queues {
    match target
    case Tables => q.(tables := q.tables + [name])
    case Rebuild => q.(rebuild := q.rebuild + [name])
    case Views => q.(views := q.views + [name])
  }

  /** A name `db.table`, quoted in its two parts; its first part is `dbLength` long. */
  function QuotedName(name: string, dbLength: nat): string
    requires dbLength < |name|
  {
    Quoted(name[..dbLength], '`') + "." + Quoted(name[dbLength + 1..], '`')
  }

  /** Queues the remembered table; cutting the name in two leaves only its first part behind. */
  function InsertPrev(dbLength: nat, s: State): State
    requires dbLength < |s.prev|
  {
    s.(prev := s.prev[..dbLength],
       queues := Push(s.queues, if s.tableRebuild then Rebuild else s.target, QuotedName(s.prev, dbLength)))
  }

  predicate Repairs(o: Options) {
    o.autoRepair && !o.repairing
  }

  function MessageTarget(row: Row, target: Target): Target {
    if row.kind == "error" && Contains(row.text, "REPAIR ") then
      if Contains(row.text, "VIEW") then Views else Tables
    else if row.kind == "error" && Contains(row.text, "ALTER TABLE") then Rebuild
    else target
  }

  function Step(o: Options, dbLength: nat, s: State, row: Row): State {
    var changed := s.prev != row.table;
    if row.kind == "status" then
      var s1 := if s.foundError && Repairs(o) && row.text != "OK" && dbLength < |s.prev| then InsertPrev(dbLength, s) else s;
      var s2 := s1.(target := Tables, foundError := false, tableRebuild := false);
      if o.silent then s2 else s2.(prev := row.table)
    else if changed then
      State(row.table,
            s.foundError || row.kind != "note",
            s.tableRebuild || (row.kind != "note" && Contains(row.text, "ALTER TABLE")),
            MessageTarget(row, s.target),
            s.queues)
    else
      s.(prev := row.table)
  }

  function Run(o: Options, dbLength: nat, s: State, rows: seq<Row>): State {
    if rows == [] then s else Step(o, dbLength, Run(o, dbLength, s, rows[..|rows| - 1]), rows[|rows| - 1])
  }

  function Start(queues: Queues): State {
    State("", false, false, Tables, queues)
  }

  /** The last table, if its status never came. */
  function End(o: Options, dbLength: nat, s: State): Queues {
    if s.foundError && Repairs(o) && dbLength < |s.prev| then InsertPrev(dbLength, s).queues else s.queues
  }

  /** The loop of the tool, over the rows of one result. */
  method PrintResult(o: Options, dbLength: nat, queues: Queues, rows: seq<Row>) returns (r: Queues)
    requires forall i :: 0 <= i < |rows| ==> dbLength < |rows[i].table|
    ensures r == End(o, dbLength, Run(o, dbLength, Start(queues), rows))
  {
    r := queues;
    var prev := "";
    var foundError, tableRebuild := false, false;
    var target := Tables;
    for i := 0 to |rows|
      invariant State(prev, foundError, tableRebuild, target, r) == Run(o, dbLength, Start(queues), rows[..i])
      invariant foundError ==> dbLength < |prev|
    {
      var row := rows[i];
      assert rows[..i + 1][..i] == rows[..i];
      var changed := prev != row.table;
      var status := row.kind == "status";
      if status {
        if foundError && o.autoRepair && !o.repairing && row.text != "OK" {
          r := Push(r, if tableRebuild then Rebuild else target, QuotedName(prev, dbLength));
          prev := prev[..dbLength];
        }
        target := Tables;
        foundError := false;
        tableRebuild := false;
        if o.silent {
          continue;
        }
      }
      if !status && changed {
        if row.kind == "error" && Contains(row.text, "REPAIR ") {
          target := if Contains(row.text, "VIEW") then Views else Tables;
        } else if row.kind == "error" && Contains(row.text, "ALTER TABLE") {
          target := Rebuild;
        }
        if row.kind != "note" {
          foundError := true;
          if Contains(row.text, "ALTER TABLE") {
            tableRebuild := true;
          }
        }
      }
      prev := row.table;
    }
    assert rows[..|rows|] == rows;
    if foundError && o.autoRepair && !o.repairing {
      r := Push(r, if tableRebuild then Rebuild else target, QuotedName(prev, dbLength));
    }
  }

  // The same, table by table.

  datatype Message = Message(kind: string, text: string)

  /** What the server says about one table: messages, none of them a status, and a status. */
  datatype Group = Group(table: string, messages: seq<Message>, status: string)

  function MessageRows(table: string, messages: seq<Message>): seq<Row> {
    if messages == [] then []
    else
      var n := |messages| - 1;
      MessageRows(table, messages[..n]) + [Row(table, messages[n].kind, messages[n].text)]
  }

  function GroupRows(g: Group): seq<Row> {
    MessageRows(g.table, g.messages) + [Row(g.table, "status", g.status)]
  }

  function AllRows(groups: seq<Group>): seq<Row> {
    if groups == [] then [] else AllRows(groups[..|groups| - 1]) + GroupRows(groups[|groups| - 1])
  }

  /** A table is queued if its first message is no note and its status is not OK. */
  predicate Needed(g: Group) {
    g.messages != [] && g.messages[0].kind != "note" && g.status != "OK"
  }

  /** The list is the first message's: rebuild before anything else, and views only for repair errors. */
  function TargetOf(g: Group): Target
    requires g.messages != []
  {
    var m := g.messages[0];
    if Contains(m.text, "ALTER TABLE") then Rebuild
    else if m.kind == "error" && Contains(m.text, "REPAIR ") && Contains(m.text, "VIEW") then Views
    else Tables
  }

  function QueueGroup(o: Options, dbLength: nat, q: Queues, g: Group): Queues
    requires dbLength < |g.table|
  {
    if Repairs(o) && Needed(g) then Push(q, TargetOf(g), QuotedName(g.table, dbLength)) else q
  }

  function QueueFor(o: Options, dbLength: nat, q: Queues, groups: seq<Group>): Queues
    requires forall i :: 0 <= i < |groups| ==> dbLength < |groups[i].table|
  {
    if groups == [] then q
    else QueueGroup(o, dbLength, QueueFor(o, dbLength, q, groups[..|groups| - 1]), groups[|groups| - 1])
  }

  predicate WellFormed(dbLength: nat, groups: seq<Group>) {
    && (forall i :: 0 <= i < |groups| ==> dbLength < |groups[i].table|)
    && (forall i, j :: 0 <= i < j < |groups| ==> groups[i].table != groups[j].table)
    && (forall i, m :: 0 <= i < |groups| && m in groups[i].messages ==> m.kind != "status")
  }

  lemma {:induction false} RunConcat(o: Options, dbLength: nat, s: State, a: seq<Row>, b: seq<Row>)
    ensures Run(o, dbLength, s, a + b) == Run(o, dbLength, Run(o, dbLength, s, a), b)
  {
    if b == [] {
      assert a + b == a;
    } else {
      RunConcat(o, dbLength, s, a, b[..|b| - 1]);
      assert (a + b)[..|a + b| - 1] == a + b[..|b| - 1];
    }
  }

  /** Between two tables nothing is pending. */
  predicate Quiet(s: State) {
    !s.foundError && !s.tableRebuild && s.target == Tables
  }

  /** Only the first message of a table is looked at. */
  lemma {:induction false} RunMessages(o: Options, dbLength: nat, s: State, table: string, messages: seq<Message>)
    requires Quiet(s) && s.prev != table && messages != [] && forall m :: m in messages ==> m.kind != "status"
    ensures var m := messages[0];
            var row := Row(table, m.kind, m.text);
            Run(o, dbLength, s, MessageRows(table, messages))
              == State(table, m.kind != "note", m.kind != "note" && Contains(m.text, "ALTER TABLE"),
                       MessageTarget(row, Tables), s.queues)
  {
    var n := |messages| - 1;
    var rows := MessageRows(table, messages);
    assert rows[..|rows| - 1] == MessageRows(table, messages[..n]);
    if n > 0 {
      RunMessages(o, dbLength, s, table, messages[..n]);
    } else {
      assert messages[..0] == [];
    }
  }

  /** One table's rows do to the queues what the table-by-table account says. */
  lemma RunGroup(o: Options, dbLength: nat, s: State, g: Group)
    requires Quiet(s) && s.prev != g.table && dbLength < |g.table|
    requires forall m :: m in g.messages ==> m.kind != "status"
    ensures var r := Run(o, dbLength, s, GroupRows(g));
            && Quiet(r) && r.queues == QueueGroup(o, dbLength, s.queues, g)
            && (r.prev == g.table || r.prev == s.prev || |r.prev| == dbLength)
  {
    var rows := GroupRows(g);
    assert rows[..|rows| - 1] == MessageRows(g.table, g.messages);
    if g.messages != [] {
      RunMessages(o, dbLength, s, g.table, g.messages);
    } else {
      assert MessageRows(g.table, g.messages) == [];
    }
  }

  /** The remembered name is that of a table already seen, or too short to be one. */
  predicate Seen(dbLength: nat, groups: seq<Group>, n: nat, name: string)
    requires n <= |groups|
  {
    |name| <= dbLength || exists i :: 0 <= i < n && groups[i].table == name
  }

  lemma WellFormedPrefix(dbLength: nat, groups: seq<Group>, n: nat)
    requires WellFormed(dbLength, groups) && n <= |groups|
    ensures WellFormed(dbLength, groups[..n])
  {
  }

  lemma SeenPrefix(dbLength: nat, groups: seq<Group>, n: nat, name: string)
    requires n <= |groups| && Seen(dbLength, groups[..n], n, name)
    ensures Seen(dbLength, groups, n, name)
  {
    if |name| > dbLength {
      var i :| 0 <= i < n && groups[..n][i].table == name;
      assert groups[i].table == name;
    }
  }

  lemma NotSeen(dbLength: nat, groups: seq<Group>, n: nat, name: string)
    requires WellFormed(dbLength, groups) && n < |groups| && Seen(dbLength, groups, n, name)
    ensures name != groups[n].table
  {
  }

  lemma SeenOn(dbLength: nat, groups: seq<Group>, n: nat, name: string, next: string)
    requires n < |groups| && Seen(dbLength, groups, n, name)
    requires next == groups[n].table || next == name || |next| == dbLength
    ensures Seen(dbLength, groups, n + 1, next)
  {
    if next == groups[n].table {
      assert 0 <= n < n + 1 && groups[n].table == next;
    }
  }

  /**
   The queues are those of the table-by-table account, each needed table once, in
   the order of the result and on the list its first message asks for; in silent
   mode too, although the loop then forgets to move on to the next name.
   */
  lemma {:induction false} RunGroups(o: Options, dbLength: nat, q: Queues, groups: seq<Group>)
    requires WellFormed(dbLength, groups)
    ensures var s := Run(o, dbLength, Start(q), AllRows(groups));
            Quiet(s) && s.queues == QueueFor(o, dbLength, q, groups) && Seen(dbLength, groups, |groups|, s.prev)
  {
    if groups == [] {
    } else {
      var n := |groups| - 1;
      var before, g := groups[..n], groups[n];
      WellFormedPrefix(dbLength, groups, n);
      RunGroups(o, dbLength, q, before);
      RunConcat(o, dbLength, Start(q), AllRows(before), GroupRows(g));
      var s := Run(o, dbLength, Start(q), AllRows(before));
      SeenPrefix(dbLength, groups, n, s.prev);
      NotSeen(dbLength, groups, n, s.prev);
      RunGroup(o, dbLength, s, g);
      SeenOn(dbLength, groups, n, s.prev, Run(o, dbLength, s, GroupRows(g)).prev);
    }
  }

  /** The result of the whole loop. */
  lemma ResultQueues(o: Options, dbLength: nat, q: Queues, groups: seq<Group>)
    requires WellFormed(dbLength, groups)
    ensures End(o, dbLength, Run(o, dbLength, Start(q), AllRows(groups))) == QueueFor(o, dbLength, q, groups)
  {
    RunGroups(o, dbLength, q, groups);
  }

  /** Silent mode gives the same queues. */
  lemma SilentChangesNothing(o: Options, dbLength: nat, q: Queues, groups: seq<Group>)
    requires WellFormed(dbLength, groups)
    ensures End(o.(silent := true), dbLength, Run(o.(silent := true), dbLength, Start(q), AllRows(groups)))
            == End(o.(silent := false), dbLength, Run(o.(silent := false), dbLength, Start(q), AllRows(groups)))
  {
    ResultQueues(o.(silent := true), dbLength, q, groups);
    ResultQueues(o.(silent := false), dbLength, q, groups);
    QueueForSilent(o, dbLength, q, groups);
  }

  lemma {:induction false} QueueForSilent(o: Options, dbLength: nat, q: Queues, groups: seq<Group>)
    requires forall i :: 0 <= i < |groups| ==> dbLength < |groups[i].table|
    ensures QueueFor(o.(silent := true), dbLength, q, groups) == QueueFor(o.(silent := false), dbLength, q, groups)
  {
    if groups == [] {
    } else {
      QueueForSilent(o, dbLength, q, groups[..|groups| - 1]);
    }
  }

  // Each needed table once.

  function Times(names: seq<string>, name: string): nat {
    if names == [] then 0 else Times(names[..|names| - 1], name) + if names[|names| - 1] == name then 1 else 0
  }

  /** How often a name is queued, on all three lists. */
  function Queued(q: Queues, name: string): nat {
    Times(q.tables, name) + Times(q.rebuild, name) + Times(q.views, name)
  }

  lemma TimesOn(names: seq<string>, x: string, name: string)
    ensures Times(names + [x], name) == Times(names, name) + if x == name then 1 else 0
  {
    assert (names + [x])[..|names|] == names;
  }

  lemma PushQueues(q: Queues, target: Target, x: string, name: string)
    ensures Queued(Push(q, target, x), name) == Queued(q, name) + if x == name then 1 else 0
  {
    match target
    case Tables => TimesOn(q.tables, x, name);
    case Rebuild => TimesOn(q.rebuild, x, name);
    case Views => TimesOn(q.views, x, name);
  }

  /** A quoted name tells the table, for names with the same character behind the database. */
  lemma QuotedNameTells(a: string, b: string, dbLength: nat)
    requires dbLength < |a| && dbLength < |b| && a[dbLength] == b[dbLength]
    requires QuotedName(a, dbLength) == QuotedName(b, dbLength)
    ensures a == b
  {
    SameParts(a[..dbLength], a[dbLength + 1..], b[..dbLength], b[dbLength + 1..]);
    assert a == a[..dbLength] + [a[dbLength]] + a[dbLength + 1..];
    assert b == b[..dbLength] + [b[dbLength]] + b[dbLength + 1..];
  }

  lemma QuotedTail(name: string, rest: string)
    ensures (Quoted(name, '`') + rest)[1..] == Body(name, '`') + rest
  {
  }

  lemma SameParts(a: string, x: string, b: string, y: string)
    requires Quoted(a, '`') + "." + Quoted(x, '`') == Quoted(b, '`') + "." + Quoted(y, '`')
    ensures a == b && x == y
  {
    var s, t := "." + Quoted(x, '`'), "." + Quoted(y, '`');
    Assoc(Quoted(a, '`'), ".", Quoted(x, '`'));
    Assoc(Quoted(b, '`'), ".", Quoted(y, '`'));
    QuotedTail(a, s);
    QuotedTail(b, t);
    BodyEnds(a, b, '`', s, t);
    assert s[1..] == Quoted(x, '`') && t[1..] == Quoted(y, '`');
    QuotedTail(x, "");
    QuotedTail(y, "");
    BodyEnds(x, y, '`', "", "");
  }

  /** All names have the same character behind the database, a dot. */
  predicate Dotted(dbLength: nat, groups: seq<Group>) {
    forall i :: 0 <= i < |groups| ==> dbLength < |groups[i].table| && groups[i].table[dbLength] == '.'
  }

  /** How many of the groups are about the table and need repair. */
  function Needs(o: Options, groups: seq<Group>, table: string): nat {
    if groups == [] then 0
    else
      var g := groups[|groups| - 1];
      Needs(o, groups[..|groups| - 1], table) + if Repairs(o) && Needed(g) && g.table == table then 1 else 0
  }

  lemma GroupQueues(o: Options, dbLength: nat, q: Queues, g: Group, table: string)
    requires dbLength < |g.table| && dbLength < |table| && g.table[dbLength] == table[dbLength]
    ensures Queued(QueueGroup(o, dbLength, q, g), QuotedName(table, dbLength))
            == Queued(q, QuotedName(table, dbLength)) + if Repairs(o) && Needed(g) && g.table == table then 1 else 0
  {
    if Repairs(o) && Needed(g) {
      PushQueues(q, TargetOf(g), QuotedName(g.table, dbLength), QuotedName(table, dbLength));
      if g.table != table && QuotedName(g.table, dbLength) == QuotedName(table, dbLength) {
        QuotedNameTells(g.table, table, dbLength);
      }
    }
  }

  lemma {:induction false} QueueCounts(o: Options, dbLength: nat, q: Queues, groups: seq<Group>, table: string)
    requires Dotted(dbLength, groups) && dbLength < |table| && table[dbLength] == '.'
    ensures Queued(QueueFor(o, dbLength, q, groups), QuotedName(table, dbLength))
            == Queued(q, QuotedName(table, dbLength)) + Needs(o, groups, table)
  {
    if groups == [] {
    } else {
      var n := |groups| - 1;
      QueueCounts(o, dbLength, q, groups[..n], table);
      GroupQueues(o, dbLength, QueueFor(o, dbLength, q, groups[..n]), groups[n], table);
    }
  }

  lemma {:induction false} NeedsOnce(o: Options, groups: seq<Group>, i: nat)
    requires i < |groups| && forall j, k :: 0 <= j < k < |groups| ==> groups[j].table != groups[k].table
    ensures Needs(o, groups, groups[i].table) == if Repairs(o) && Needed(groups[i]) then 1 else 0
  {
    var n := |groups| - 1;
    if i == n {
      NeedsNone(o, groups[..n], groups[n].table);
    } else {
      assert groups[i].table != groups[n].table;
      NeedsOnce(o, groups[..n], i);
    }
  }

  lemma {:induction false} NeedsNone(o: Options, groups: seq<Group>, table: string)
    requires forall j :: 0 <= j < |groups| ==> groups[j].table != table
    ensures Needs(o, groups, table) == 0
  {
    if groups == [] {
    } else {
      NeedsNone(o, groups[..|groups| - 1], table);
    }
  }

  /** From empty lists, a table is queued exactly once, on one of the three lists, if it needs repair, and else never. */
  lemma QueuedOnce(o: Options, dbLength: nat, groups: seq<Group>, i: nat)
    requires WellFormed(dbLength, groups) && Dotted(dbLength, groups) && i < |groups|
    ensures var r := End(o, dbLength, Run(o, dbLength, Start(Queues([], [], [])), AllRows(groups)));
            Queued(r, QuotedName(groups[i].table, dbLength)) == if Repairs(o) && Needed(groups[i]) then 1 else 0
  {
    ResultQueues(o, dbLength, Queues([], [], []), groups);
    QueueCounts(o, dbLength, Queues([], [], []), groups, groups[i].table);
    NeedsOnce(o, groups, i);
  }
}
