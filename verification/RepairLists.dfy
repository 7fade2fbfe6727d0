/**
 The three lists of the repair queue, each told by itself, and what the names on
 them say.
 */
module RepairLists {
  import opened Basics
  import opened Identifiers
  import opened RepairQueue

  /** A text holds another one exactly if that stands somewhere in it. */
  lemma ContainsIff(text: string, t: string)
    ensures Contains(text, t) <==> exists a: string, b: string :: text == a + t + b
  {
    if Contains(text, t) {
      var i :| 0 <= i <= |text| && t <= text[i..];
      assert text == text[..i] + t + text[i + |t|..];
    }
    if a: string, b: string :| text == a + t + b {
      assert text[|a|..] == t + b;
      assert 0 <= |a| <= |text| && t <= text[|a|..];
    }
  }

  // Names read back.

  /** A part read back, and the text behind it. */
  datatype Part = Part(name: string, rest: string)

  function Prefixed(ch: char, r: Option<Part>): Option<Part> {
    match r
    case None => None
    case Some(p) => Some(p.(name := [ch] + p.name))
  }

  function ReadBody(s: string): Option<Part> {
    if s == "" then None
    else if s[0] != '`' then Prefixed(s[0], ReadBody(s[1..]))
    else if |s| > 1 && s[1] == '`' then Prefixed('`', ReadBody(s[2..]))
    else Some(Part("", s[1..]))
  }

  /** A name in backticks at the start of a text. */
  function ReadPart(s: string): Option<Part> {
    if s != "" && s[0] == '`' then ReadBody(s[1..]) else None
  }

  lemma {:induction false} BodyReads(name: string, rest: string)
    requires rest == "" || rest[0] != '`'
    ensures ReadBody(Body(name, '`') + rest) == Some(Part(name, rest))
  {
    if name == "" {
      assert Body(name, '`') + rest == "`" + rest;
      assert ("`" + rest)[1..] == rest;
    } else {
      BodyHead(name, '`');
      BodyReads(name[1..], rest);
      var head := if name[0] == '`' then "``" else [name[0]];
      var tail := Body(name[1..], '`') + rest;
      Assoc(head, Body(name[1..], '`'), rest);
      assert (head + tail)[|head|..] == tail;
      assert name == [name[0]] + name[1..];
    }
  }

  lemma PartReads(name: string, rest: string)
    requires rest == "" || rest[0] != '`'
    ensures ReadPart(Quoted(name, '`') + rest) == Some(Part(name, rest))
  {
    QuotedTail(name, rest);
    BodyReads(name, rest);
  }

  /** A queued name read back is the database, a dot, and the table. */
  lemma QuotedNameReads(name: string, dbLength: nat)
    requires dbLength < |name|
    ensures var db, table := name[..dbLength], name[dbLength + 1..];
            && ReadPart(QuotedName(name, dbLength)) == Some(Part(db, "." + Quoted(table, '`')))
            && ReadPart(Quoted(table, '`')) == Some(Part(table, ""))
  {
    var db, table := name[..dbLength], name[dbLength + 1..];
    Assoc(Quoted(db, '`'), ".", Quoted(table, '`'));
    PartReads(db, "." + Quoted(table, '`'));
    PartReads(table, "");
    assert Quoted(table, '`') + "" == Quoted(table, '`');
  }

  // The lists.

  /** What one table adds to a list. */
  function Name(dbLength: nat, g: Group, list: Target): seq<string>
    requires dbLength < |g.table|
  {
    if Needed(g) && TargetOf(g) == list then [QuotedName(g.table, dbLength)] else []
  }

  /** The names for one list: of the tables that need repair, and whose first message asks for it, in order. */
  function Names(dbLength: nat, groups: seq<Group>, list: Target): seq<string>
    requires forall i :: 0 <= i < |groups| ==> dbLength < |groups[i].table|
  {
    if groups == [] then []
    else
      var n := |groups| - 1;
      Names(dbLength, groups[..n], list) + Name(dbLength, groups[n], list)
  }

  lemma {:induction false} QueueLists(o: Options, dbLength: nat, q: Queues, groups: seq<Group>)
    requires forall i :: 0 <= i < |groups| ==> dbLength < |groups[i].table|
    requires o.autoRepair && !o.repairing
    ensures var r := QueueFor(o, dbLength, q, groups);
            && r.tables == q.tables + Names(dbLength, groups, Tables)
            && r.rebuild == q.rebuild + Names(dbLength, groups, Rebuild)
            && r.views == q.views + Names(dbLength, groups, Views)
  {
    if groups == [] {
    } else {
      var n := |groups| - 1;
      QueueLists(o, dbLength, q, groups[..n]);
      QueueOne(o, dbLength, QueueFor(o, dbLength, q, groups[..n]), groups[n]);
      ListOn(q.tables, dbLength, groups, Tables);
      ListOn(q.rebuild, dbLength, groups, Rebuild);
      ListOn(q.views, dbLength, groups, Views);
    }
  }

  lemma QueueOne(o: Options, dbLength: nat, q: Queues, g: Group)
    requires dbLength < |g.table| && o.autoRepair && !o.repairing
    ensures var r := QueueGroup(o, dbLength, q, g);
            && r.tables == q.tables + Name(dbLength, g, Tables)
            && r.rebuild == q.rebuild + Name(dbLength, g, Rebuild)
            && r.views == q.views + Name(dbLength, g, Views)
  {
  }

  lemma ListOn(list: seq<string>, dbLength: nat, groups: seq<Group>, t: Target)
    requires groups != [] && forall i :: 0 <= i < |groups| ==> dbLength < |groups[i].table|
    ensures var n := |groups| - 1;
            list + Names(dbLength, groups[..n], t) + Name(dbLength, groups[n], t) == list + Names(dbLength, groups, t)
  {
    var n := |groups| - 1;
    Assoc(list, Names(dbLength, groups[..n], t), Name(dbLength, groups[n], t));
  }

  lemma {:induction false} NothingQueued(o: Options, dbLength: nat, q: Queues, groups: seq<Group>)
    requires forall i :: 0 <= i < |groups| ==> dbLength < |groups[i].table|
    requires !(o.autoRepair && !o.repairing)
    ensures QueueFor(o, dbLength, q, groups) == q
  {
    if groups == [] {
    } else {
      NothingQueued(o, dbLength, q, groups[..|groups| - 1]);
    }
  }

  /** Each list gets exactly its names, in the order of the result, if tables are to be repaired and are not being repaired. */
  lemma ResultLists(o: Options, dbLength: nat, q: Queues, groups: seq<Group>)
    requires WellFormed(dbLength, groups)
    ensures var r := End(o, dbLength, Run(o, dbLength, Start(q), AllRows(groups)));
            if o.autoRepair && !o.repairing then
              && r.tables == q.tables + Names(dbLength, groups, Tables)
              && r.rebuild == q.rebuild + Names(dbLength, groups, Rebuild)
              && r.views == q.views + Names(dbLength, groups, Views)
            else r == q
  {
    ResultQueues(o, dbLength, q, groups);
    if o.autoRepair && !o.repairing {
      QueueLists(o, dbLength, q, groups);
    } else {
      NothingQueued(o, dbLength, q, groups);
    }
  }
}
