/** The rate card of scripts/usage_engine.py as an object; its methods are the steps proved about in RateCards. */
module RateCardStore {
  import opened Basics
  import opened RateCards

  /** rows without the first row equal to x. */
  method RemoveFirst(rows: seq<Rate>, x: Rate) returns (rest: seq<Rate>)
    requires forall i, j :: 0 <= i < j < |rows| ==> rows[i] != rows[j]
    ensures rest == Kept(rows, [], Some(x))
  {
    var i := 0;
    while i < |rows| && rows[i] != x
      invariant 0 <= i <= |rows| && x !in rows[..i]
    {
      i := i + 1;
    }
    if i == |rows| {
      rest := rows;
      KeptWithout(rows, x);
    } else {
      rest := rows[..i] + rows[i + 1..];
      KeptAround(rows, i, x);
    }
  }

  lemma {:induction false} KeptAppend(a: seq<Rate>, b: seq<Rate>, closing: seq<Rate>, replace: Option<Rate>)
    ensures Kept(a + b, closing, replace) == Kept(a, closing, replace) + Kept(b, closing, replace)
  {
    if b == [] {
      assert a + b == a;
    } else {
      var n := |b| - 1;
      assert (a + b)[..|a + b| - 1] == a + b[..n];
      KeptAppend(a, b[..n], closing, replace);
    }
  }

  lemma {:induction false} KeptWithout(rows: seq<Rate>, x: Rate)
    requires x !in rows
    ensures Kept(rows, [], Some(x)) == rows
  {
    if rows != [] { KeptWithout(rows[..|rows| - 1], x); }
  }

  lemma KeptAround(rows: seq<Rate>, i: nat, x: Rate)
    requires i < |rows| && rows[i] == x && x !in rows[..i] && x !in rows[i + 1..]
    ensures Kept(rows, [], Some(x)) == rows[..i] + rows[i + 1..]
  {
    hide Kept;
    KeptWithout(rows[..i], x);
    KeptWithout(rows[i + 1..], x);
    KeptAppend(rows[..i], [x], [], Some(x));
    KeptAppend(rows[..i] + [x], rows[i + 1..], [], Some(x));
    assert rows == rows[..i] + [x] + rows[i + 1..];
    KeptOne(x);
  }

  lemma KeptOne(x: Rate)
    ensures Kept([x], [], Some(x)) == []
  {
  }

  /** Removing the replaced row and then the truncated one is removing both. */
  lemma {:induction false} KeptTwice(rows: seq<Rate>, c: Rate, replace: Option<Rate>)
    ensures Kept(Kept(rows, [], replace), [], Some(c)) == Kept(rows, [c], replace)
  {
    if rows != [] {
      var front, last := rows[..|rows| - 1], rows[|rows| - 1];
      KeptTwice(front, c, replace);
      var k := Kept(front, [], replace);
      if replace != Some(last) {
        assert Kept(rows, [], replace) == k + [last];
        assert (k + [last])[..|k|] == k;
      } else {
        assert Kept(rows, [], replace) == k;
      }
    }
  }

  lemma {:induction false} KeptNothing(rows: seq<Rate>)
    ensures Kept(rows, [], None) == rows
  {
    if rows != [] { KeptNothing(rows[..|rows| - 1]); }
  }

  lemma CardDistinct(rows: seq<Rate>)
    requires Card(rows)
    ensures forall i, j :: 0 <= i < j < |rows| ==> rows[i] != rows[j]
  {
  }

  lemma InsertIs(rows: seq<Rate>, e: Rate, now: int, replace: Option<Rate>, check: Check)
    requires check == CheckAll(rows, e, now, replace)
    ensures Insert(rows, e, now, replace) ==
            if check.Rejected? then (rows, Refused(check.why))
            else (Kept(rows, check.closing, replace) + Truncated(check.closing, e.start) + [e], Inserted(check.closing))
  {
  }

  /** Takes the replaced row out, and hands the truncated predecessor over at the new start. */
  method MakeRoom(rows: seq<Rate>, closing: seq<Rate>, replace: Option<Rate>, at: int) returns (room: seq<Rate>)
    requires Card(rows) && |closing| <= 1
    ensures room == Kept(rows, closing, replace) + Truncated(closing, at)
  {
    hide Card;
    room := rows;
    CardDistinct(rows);
    if replace.Some? {
      room := RemoveFirst(rows, replace.value);
    } else {
      KeptNothing(rows);
    }
    if closing != [] {
      KeptDistinct(rows, replace);
      KeptTwice(rows, closing[0], replace);
      room := RemoveFirst(room, closing[0]);
      room := room + [closing[0].(to := Some(at))];
      assert closing == [closing[0]] && closing[..|closing| - 1] == [];
      assert Truncated(closing, at) == [closing[0].(to := Some(at))];
    }
  }

  lemma KeptDistinct(rows: seq<Rate>, replace: Option<Rate>)
    requires Card(rows)
    ensures var k := Kept(rows, [], replace); forall i, j :: 0 <= i < j < |k| ==> k[i] != k[j]
  {
    KeptUnique(rows, [], replace);
    hide Kept;
  }

  datatype SyncOutcome = Appended | AlreadyThere | Conflict

  /** How a sync reports one row. */
  function SyncReply(rows: seq<Rate>, e: Rate, now: int): SyncOutcome {
    if !Valid(e) then Conflict
    else
      match Find(rows, e)
      case Some(existing) => if existing == e then AlreadyThere else Conflict
      case None => if e.start > now && Upsert(rows, e, now).1.Inserted? then Appended else Conflict
  }

  class RateCard {
    var entries: seq<Rate>

    constructor ()
      ensures entries == [] && Card(entries)
    {
      entries := [];
    }

    method FindRow(e: Rate) returns (found: Option<Rate>)
      ensures found == Find(entries, e)
    {
      for i := 0 to |entries|
        invariant Find(entries, e) == Find(entries[i..], e)
      {
        if SameIdentity(entries[i], e) { return Some(entries[i]); }
      }
      found := None;
    }

    /** Every stored row is validated before anything is changed. */
    method Validate(e: Rate, now: int, replace: Option<Rate>) returns (check: Check)
      ensures check == CheckAll(entries, e, now, replace)
    {
      var toClose: seq<Rate> := [];
      for i := 0 to |entries|
        invariant CheckAll(entries[..i], e, now, replace) == Clear(toClose)
      {
        assert entries[..i + 1][..i] == entries[..i];
        var judged := Judge(entries[i], e, now, replace);
        if judged.Rejected? {
          RejectedPrefix(entries, i + 1, e, now, replace);
          return judged;
        }
        toClose := toClose + judged.closing;
      }
      assert entries[..|entries|] == entries;
      check := Clear(toClose);
    }

    /** Insert, truncating at most one predecessor in the future; a refusal changes nothing. */
    method InsertRow(e: Rate, now: int, replace: Option<Rate>) returns (reply: Reply)
      requires Card(entries) && Valid(e)
      modifies this
      ensures (entries, reply) == Insert(old(entries), e, now, replace)
    {
      hide CheckAll, Insert, Card, Kept, Truncated;
      var check := Validate(e, now, replace);
      InsertIs(entries, e, now, replace, check);
      match check
      case Rejected(why) => reply := Refused(why);
      case Clear(closing) =>
        AtMostOneTruncated(entries, e, now, replace);
        var rows := MakeRoom(entries, closing, replace, e.start);
        entries := rows + [e];
        reply := Inserted(closing);
    }

    method UpsertRow(e: Rate, now: int) returns (reply: Reply)
      requires Card(entries)
      modifies this
      ensures (entries, reply) == Upsert(old(entries), e, now)
      ensures Card(entries)
    {
      UpsertCard(entries, e, now);
      hide Card, Valid, Insert;
      if !Valid(e) { return Refused(Invalid); }
      var existing := FindRow(e);
      if existing.Some? {
        if existing.value == e { return Unchanged; }
        if existing.value.start <= now { return Refused(ImmutableHistory); }
      }
      reply := InsertRow(e, now, existing);
    }

    method SyncOne(e: Rate, now: int) returns (outcome: SyncOutcome)
      requires Card(entries)
      modifies this
      ensures entries == SyncRow(old(entries), e, now) && outcome == SyncReply(old(entries), e, now)
      ensures Card(entries)
    {
      hide Card, Valid, Insert;
      if !Valid(e) { return Conflict; }
      var existing := FindRow(e);
      if existing.Some? { return if existing.value == e then AlreadyThere else Conflict; }
      if e.start <= now { return Conflict; }
      var reply := UpsertRow(e, now);
      outcome := if reply.Inserted? then Appended else Conflict;
    }

    /** A provider sync: rows are taken one by one, and no row-level problem ends it. */
    method SyncFromProvider(incoming: seq<Rate>, now: int) returns (report: seq<SyncOutcome>)
      requires Card(entries)
      modifies this
      ensures entries == Sync(old(entries), incoming, now)
      ensures Card(entries)
      ensures |report| == |incoming|
      ensures forall i :: 0 <= i < |incoming| ==> report[i] == SyncReply(Sync(old(entries), incoming[..i], now), incoming[i], now)
    {
      hide Card, SyncRow, SyncReply;
      report := [];
      for i := 0 to |incoming|
        invariant Card(entries)
        invariant entries == Sync(old(entries), incoming[..i], now)
        invariant |report| == i
        invariant forall j :: 0 <= j < i ==> report[j] == SyncReply(Sync(old(entries), incoming[..j], now), incoming[j], now)
      {
        assert incoming[..i + 1][..i] == incoming[..i];
        var outcome := SyncOne(incoming[i], now);
        report := report + [outcome];
      }
      assert incoming[..|incoming|] == incoming;
    }

    /** The rate in effect, found by two scans; two equally specific rows are an ambiguity, not a guess. */
    method RateAt(meter: string, t: int, state: Option<string>) returns (found: Lookup)
      ensures found == RateFor(entries, meter, t, state)
    {
      var specific: seq<Rate> := [];
      var wild: seq<Rate> := [];
      for i := 0 to |entries|
        invariant specific == InEffect(entries[..i], meter, state, t)
        invariant wild == InEffect(entries[..i], meter, None, t)
      {
        assert entries[..i + 1][..i] == entries[..i];
        if entries[i].meter == meter && Covers(entries[i], t) {
          if entries[i].state == state { specific := specific + [entries[i]]; }
          if entries[i].state == None { wild := wild + [entries[i]]; }
        }
      }
      assert entries[..|entries|] == entries;
      if |specific| > 1 { return Ambiguous; }
      if |specific| == 1 { return Found(specific[0]); }
      if |wild| > 1 { return Ambiguous; }
      found := if |wild| == 1 then Found(wild[0]) else NoRate;
    }
  }

  lemma {:induction false} RejectedPrefix(rows: seq<Rate>, n: nat, e: Rate, now: int, replace: Option<Rate>)
    requires n <= |rows| && CheckAll(rows[..n], e, now, replace).Rejected?
    ensures CheckAll(rows, e, now, replace) == CheckAll(rows[..n], e, now, replace)
  {
    if n < |rows| {
      var front := rows[..|rows| - 1];
      assert front[..n] == rows[..n];
      RejectedPrefix(front, n, e, now, replace);
    } else {
      assert rows[..n] == rows;
    }
  }
}
