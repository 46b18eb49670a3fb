/** The user's notification list: a condition list built from the optional filters, a strict keyset cursor,
    and one row more than asked for to see whether there is a next page. */
module Pagination {
  import opened Basics
  import opened Uuids
  import opened Domain
  import opened Rfc3339
  import Cursor
  import opened Ordering

  /** A row of the log as the list reads it. */
  datatype Row = Row(content: Content, status: Status, createdAt: Timestamp)

  type Table = map<Uuid, Row>

  datatype Params = Params(
    userId: int, limit: int, cursor: string, channel: Option<Channel>, status: Option<string>,
    since: Option<Timestamp>, until: Option<Timestamp>)

  function StatusName(s: Status): string
  {
    match s
    case Received => "received"
    case Enqueued => "enqueued"
    case InFlight => "in_flight"
    case Sent => "sent"
    case Failed => "failed"
    case Retrying => "retrying"
    case DeadLetter => "dead_letter"
  }

  /** The names in the database, which the filter is compared with. */
  lemma StatusNames(s: Status, t: Status)
    ensures StatusName(s) == StatusName(t) <==> s == t
    ensures StatusName(Received) == "received" && StatusName(Enqueued) == "enqueued"
    ensures StatusName(InFlight) == "in_flight" && StatusName(Sent) == "sent" && StatusName(Failed) == "failed"
    ensures StatusName(Retrying) == "retrying" && StatusName(DeadLetter) == "dead_letter"
  {}

  function KeyOf(row: Row): Key
  {
    Key(Instant(row.createdAt), row.content.id)
  }

  predicate TableOk(table: Table)
  {
    forall id | id in table :: table[id].content.id == id && Valid(table[id].createdAt)
  }

  /** The filters' meaning. */
  predicate Matches(p: Params, row: Row)
  {
    && row.content.recipient.userId == Some(p.userId)
    && (p.channel.Some? ==> row.content.channel == p.channel.value)
    && (p.status.Some? ==> StatusName(row.status) == p.status.value)
    && (p.since.Some? ==> Instant(row.createdAt) >= Instant(p.since.value))
    && (p.until.Some? ==> Instant(row.createdAt) <= Instant(p.until.value))
  }

  // ----- The condition list -----

  datatype Value = Number(number: int) | Time(time: Timestamp) | Id(id: Uuid) | Text(text: string)

  /** Each condition names its arguments by position, counted from one. */
  datatype Cond =
    | UserIs(n: nat)
    | BelowCursor(n: nat, m: nat)
    | ChannelIs(n: nat)
    | StatusIs(n: nat)
    | CreatedFrom(n: nat)
    | CreatedUntil(n: nat)

  function Arg(args: seq<Value>, n: nat): Option<Value>
  {
    if 1 <= n <= |args| then Some(args[n - 1]) else None
  }

  predicate Holds(c: Cond, args: seq<Value>, row: Row)
  {
    var at := Instant(row.createdAt);
    match c
    case UserIs(n) =>
      && Arg(args, n).Some? && Arg(args, n).value.Number?
      && row.content.recipient.userId == Some(Arg(args, n).value.number)
    case BelowCursor(n, m) =>
      && Arg(args, n).Some? && Arg(args, n).value.Time? && Arg(args, m).Some? && Arg(args, m).value.Id?
      && (at < Instant(Arg(args, n).value.time)
          || (at == Instant(Arg(args, n).value.time) && row.content.id < Arg(args, m).value.id))
    case ChannelIs(n) => Arg(args, n) == Some(Text(row.content.channel))
    case StatusIs(n) => Arg(args, n) == Some(Text(StatusName(row.status)))
    case CreatedFrom(n) => Arg(args, n).Some? && Arg(args, n).value.Time? && at >= Instant(Arg(args, n).value.time)
    case CreatedUntil(n) => Arg(args, n).Some? && Arg(args, n).value.Time? && at <= Instant(Arg(args, n).value.time)
  }

  function Numbers(c: Cond): seq<nat>
  {
    if c.BelowCursor? then [c.n, c.m] else [c.n]
  }

  /** The placeholders in the order of the text. */
  function AllNumbers(conds: seq<Cond>): seq<nat>
  {
    if conds == [] then [] else AllNumbers(conds[..|conds| - 1]) + Numbers(conds[|conds| - 1])
  }

  predicate All(conds: seq<Cond>, args: seq<Value>, row: Row)
  {
    forall i | 0 <= i < |conds| :: Holds(conds[i], args, row)
  }

  function OneTo(n: nat): (s: seq<nat>)
    ensures |s| == n
  {
    seq(n, i => i + 1)
  }

  predicate Bounded(conds: seq<Cond>, n: nat)
  {
    forall i | 0 <= i < |conds| :: forall k | k in Numbers(conds[i]) :: 1 <= k <= n
  }

  /** Every argument so far is used once, in order. */
  predicate Numbered(conds: seq<Cond>, args: seq<Value>)
  {
    AllNumbers(conds) == OneTo(|args|) && Bounded(conds, |args|)
  }

  /** New arguments leave the earlier conditions as they were. */
  lemma HoldsStill(c: Cond, args: seq<Value>, more: seq<Value>, row: Row)
    requires forall k | k in Numbers(c) :: 1 <= k <= |args|
    ensures Holds(c, args + more, row) == Holds(c, args, row)
  {
    assert Arg(args + more, c.n) == Arg(args, c.n) by {
      assert c.n in Numbers(c);
    }
    if c.BelowCursor? {
      assert c.m in Numbers(c);
      assert Arg(args + more, c.m) == Arg(args, c.m);
    }
    hide Instant, Arg;
  }

  lemma Added(conds: seq<Cond>, args: seq<Value>, c: Cond, values: seq<Value>)
    requires Numbered(conds, args) && Numbers(c) == OneTo(|args| + |values|)[|args|..]
    ensures Numbered(conds + [c], args + values)
    ensures forall row ::
      All(conds + [c], args + values, row) <==> All(conds, args, row) && Holds(c, args + values, row)
  {
    var all := conds + [c];
    assert all[..|all| - 1] == conds;
    assert OneTo(|args| + |values|) == OneTo(|args|) + OneTo(|args| + |values|)[|args|..];
    forall i, k | 0 <= i < |all| && k in Numbers(all[i]) ensures 1 <= k <= |args| + |values| {
      if i == |conds| {
        assert forall j | 0 <= j < |Numbers(c)| :: Numbers(c)[j] == |args| + j + 1;
      }
    }
    forall row ensures All(all, args + values, row) <==> All(conds, args, row) && Holds(c, args + values, row) {
      AllSplits(conds, args, c, values, row);
    }
  }

  lemma AllSplits(conds: seq<Cond>, args: seq<Value>, c: Cond, values: seq<Value>, row: Row)
    requires Bounded(conds, |args|)
    ensures All(conds + [c], args + values, row) <==> All(conds, args, row) && Holds(c, args + values, row)
  {
    var all := conds + [c];
    forall i | 0 <= i < |conds| ensures Holds(all[i], args + values, row) == Holds(conds[i], args, row) {
      HoldsStill(conds[i], args, values, row);
    }
    hide Holds;
    if All(all, args + values, row) {
      assert Holds(all[|conds|], args + values, row);
    }
  }

  ghost predicate Means(conds: seq<Cond>, args: seq<Value>, rows: iset<Row>)
  {
    Numbered(conds, args) && forall row :: All(conds, args, row) <==> row in rows
  }

  /** One more condition on the next arguments. */
  method And(
    conds: seq<Cond>, args: seq<Value>, c: Cond, values: seq<Value>, ghost rows: iset<Row>,
    ghost part: iset<Row>)
    returns (conds': seq<Cond>, args': seq<Value>)
    requires Means(conds, args, rows) && Numbers(c) == OneTo(|args| + |values|)[|args|..]
    requires forall row :: Holds(c, args + values, row) <==> row in part
    ensures Means(conds', args', rows * part)
  {
    hide Holds, Numbered, All;
    Added(conds, args, c, values);
    conds', args' := conds + [c], args + values;
  }

  ghost function UserRows(user: int): iset<Row>
  {
    iset row: Row | row.content.recipient.userId == Some(user)
  }

  ghost function BelowRows(after: Option<(Timestamp, Uuid)>): iset<Row>
  {
    iset row: Row | after.Some? ==> Above(Key(Instant(after.value.0), after.value.1), KeyOf(row))
  }

  ghost function ChannelRows(channel: Option<Channel>): iset<Row>
  {
    iset row: Row | channel.Some? ==> row.content.channel == channel.value
  }

  ghost function StatusRows(status: Option<string>): iset<Row>
  {
    iset row: Row | status.Some? ==> StatusName(row.status) == status.value
  }

  ghost function SinceRows(since: Option<Timestamp>): iset<Row>
  {
    iset row: Row | since.Some? ==> Instant(row.createdAt) >= Instant(since.value)
  }

  ghost function UntilRows(until: Option<Timestamp>): iset<Row>
  {
    iset row: Row | until.Some? ==> Instant(row.createdAt) <= Instant(until.value)
  }

  lemma First(user: int)
    ensures Means([UserIs(1)], [Number(user)], UserRows(user))
  {
    var conds, args := [UserIs(1)], [Number(user)];
    assert conds[..0] == [];
    assert AllNumbers(conds) == [1];
    forall row ensures All(conds, args, row) <==> row in UserRows(user) {
      assert All(conds, args, row) <==> Holds(conds[0], args, row);
    }
  }

  /** The next condition's arguments, right after those there are. */
  lemma NextOne(c: Cond, args: seq<Value>, v: Value)
    requires !c.BelowCursor? && c.n == |args| + 1
    ensures Numbers(c) == OneTo(|args| + 1)[|args|..] && Arg(args + [v], c.n) == Some(v)
  {}

  lemma NextTwo(args: seq<Value>, v: Value, w: Value)
    ensures Numbers(BelowCursor(|args| + 1, |args| + 2)) == OneTo(|args| + 2)[|args|..]
    ensures Arg(args + [v, w], |args| + 1) == Some(v) && Arg(args + [v, w], |args| + 2) == Some(w)
  {}

  lemma EverythingKept(rows: iset<Row>)
    ensures rows * BelowRows(None) == rows && rows * ChannelRows(None) == rows && rows * StatusRows(None) == rows
    ensures rows * SinceRows(None) == rows && rows * UntilRows(None) == rows
  {}

  ghost function Intended(p: Params, after: Option<(Timestamp, Uuid)>): iset<Row>
  {
    UserRows(p.userId) * BelowRows(after) * ChannelRows(p.channel) * StatusRows(p.status)
    * SinceRows(p.since) * UntilRows(p.until)
  }

  /** Builds the conditions and the arguments their placeholders name, for any set of optional filters: every
      argument is named once, in order, and the conditions together mean what the filters mean. */
  method BuildConditions(p: Params, after: Option<(Timestamp, Uuid)>) returns (conds: seq<Cond>, args: seq<Value>)
    ensures AllNumbers(conds) == OneTo(|args|)
    ensures forall row :: All(conds, args, row) <==>
      Matches(p, row) && (after.Some? ==> Above(Key(Instant(after.value.0), after.value.1), KeyOf(row)))
  {
    hide Instant, Means, Numbers, Arg, StatusName;
    conds, args := [UserIs(1)], [Number(p.userId)];
    First(p.userId);
    conds, args := AndCursor(conds, args, after, UserRows(p.userId));
    conds, args := AndText(conds, args, p.channel, p.status, UserRows(p.userId) * BelowRows(after));
    conds, args := AndTimes(conds, args, p.since, p.until,
                            UserRows(p.userId) * BelowRows(after) * ChannelRows(p.channel) * StatusRows(p.status));
    Meant(conds, args, p, after);
  }

  lemma Meant(conds: seq<Cond>, args: seq<Value>, p: Params, after: Option<(Timestamp, Uuid)>)
    requires Means(conds, args, Intended(p, after))
    ensures AllNumbers(conds) == OneTo(|args|)
    ensures forall row :: All(conds, args, row) <==>
      Matches(p, row) && (after.Some? ==> Above(Key(Instant(after.value.0), after.value.1), KeyOf(row)))
  {
    hide Instant, All, AllNumbers, Bounded, StatusName, Above;
  }

  method AndCursor(conds: seq<Cond>, args: seq<Value>, after: Option<(Timestamp, Uuid)>, ghost rows: iset<Row>)
    returns (conds': seq<Cond>, args': seq<Value>)
    requires Means(conds, args, rows)
    ensures Means(conds', args', rows * BelowRows(after))
  {
    hide Means, Numbers, Arg, Instant;
    conds', args' := conds, args;
    EverythingKept(rows);
    if after.Some? {
      var n := |args|;
      NextTwo(args, Time(after.value.0), Id(after.value.1));
      conds', args' := And(conds, args, BelowCursor(n + 1, n + 2), [Time(after.value.0), Id(after.value.1)],
                           rows, BelowRows(after));
    }
  }

  method AndText(
    conds: seq<Cond>, args: seq<Value>, channel: Option<Channel>, status: Option<string>, ghost rows: iset<Row>)
    returns (conds': seq<Cond>, args': seq<Value>)
    requires Means(conds, args, rows)
    ensures Means(conds', args', rows * ChannelRows(channel) * StatusRows(status))
  {
    hide Means, Numbers, Arg, Instant, StatusName;
    conds', args' := conds, args;
    EverythingKept(rows);
    if channel.Some? {
      NextOne(ChannelIs(|args'| + 1), args', Text(channel.value));
      conds', args' := And(conds', args', ChannelIs(|args'| + 1), [Text(channel.value)], rows, ChannelRows(channel));
    }
    EverythingKept(rows * ChannelRows(channel));
    if status.Some? {
      NextOne(StatusIs(|args'| + 1), args', Text(status.value));
      conds', args' := And(conds', args', StatusIs(|args'| + 1), [Text(status.value)],
                           rows * ChannelRows(channel), StatusRows(status));
    }
  }

  method AndTimes(
    conds: seq<Cond>, args: seq<Value>, since: Option<Timestamp>, until: Option<Timestamp>,
    ghost rows: iset<Row>)
    returns (conds': seq<Cond>, args': seq<Value>)
    requires Means(conds, args, rows)
    ensures Means(conds', args', rows * SinceRows(since) * UntilRows(until))
  {
    hide Means, Numbers, Arg, Instant;
    conds', args' := conds, args;
    EverythingKept(rows);
    if since.Some? {
      NextOne(CreatedFrom(|args'| + 1), args', Time(since.value));
      conds', args' := And(conds', args', CreatedFrom(|args'| + 1), [Time(since.value)], rows, SinceRows(since));
    }
    EverythingKept(rows * SinceRows(since));
    if until.Some? {
      NextOne(CreatedUntil(|args'| + 1), args', Time(until.value));
      conds', args' := And(conds', args', CreatedUntil(|args'| + 1), [Time(until.value)],
                           rows * SinceRows(since), UntilRows(until));
    }
  }
}
