/** The event ledger of scripts/resource_events.py as an object; each method is one step of the specification. */
module LedgerObject {
  import opened Basics
  import opened EventFold
  import Spec = EventLedger

  /** A batch of corrections, one receipt each. */
  function CorrectAll(l: Spec.Ledger, events: seq<Event>, periods: seq<Spec.Period>): (Spec.Ledger, seq<Spec.Receipt>) {
    if events == [] then (l, [])
    else
      var (before, receipts) := CorrectAll(l, events[..|events| - 1], periods);
      var (after, receipt) := Spec.Correct(before, events[|events| - 1], periods);
      (after, receipts + [receipt])
  }

  function ArchiveWith(archive: map<ResourceKey, seq<Spec.Superseded>>, r: ResourceKey, lost: seq<Spec.Superseded>)
    : map<ResourceKey, seq<Spec.Superseded>>
  {
    if lost == [] then archive else archive[r := (if r in archive then archive[r] else []) + lost]
  }

  lemma ArchiveOneMore(archive: map<ResourceKey, seq<Spec.Superseded>>, r: ResourceKey, lost: seq<Spec.Superseded>, x: Spec.Superseded)
    ensures ArchiveWith(ArchiveWith(archive, r, lost), r, [x]) == ArchiveWith(archive, r, lost + [x])
  {
    var had := if r in archive then archive[r] else [];
    var more := lost + [x];
    assert more != [] && had + lost + [x] == had + more;
    assert archive[r := had + lost][r := had + more] == archive[r := had + more];
    assert lost == [] ==> more == [x];
  }

  class EventLedger {
    var events: seq<Event>
    var byEventId: map<EventId, Event>
    var bySourceKey: map<Spec.SourceKey, Event>
    var byResource: map<ResourceKey, seq<Event>>
    var ledgerSeq: map<ResourceKey, nat>
    var current: map<ResourceKey, Projection>
    var archive: map<ResourceKey, seq<Spec.Superseded>>
    var quarantine: seq<Spec.QuarantineEntry>
    var flags: seq<Spec.Flag>
    var outbox: seq<Spec.OutboxEntry>
    var outboxByEvent: map<EventId, nat>
    var commitSeq: nat
    var counter: nat
    var clock: nat

    constructor ()
      ensures View() == Spec.EMPTY
    {
      events, byEventId, bySourceKey, byResource, ledgerSeq := [], map[], map[], map[], map[];
      current, archive := map[], map[];
      quarantine, flags, outbox, outboxByEvent := [], [], [], map[];
      commitSeq, counter, clock := 0, 0, 0;
    }

    ghost function Book(): Spec.Book
      reads this
    {
      Spec.Book(events, byEventId, bySourceKey, byResource, ledgerSeq, current, archive)
    }

    ghost function View(): Spec.Ledger
      reads this
    {
      Spec.Ledger(Book(), quarantine, flags, outbox, outboxByEvent, commitSeq, counter, clock)
    }

    /** Re-projects a resource and archives every segment the new projection no longer has. */
    method Reproject(r: ResourceKey, cause: EventId)
      requires r in byResource
      modifies this`current, this`archive
      ensures var latest := Project(byResource[r]);
              current == old(current)[r := latest] && archive == Spec.ArchiveStep(old(Book()), r, latest, cause)
    {
      var latest := Fold(byResource[r]);
      if r in current {
        var previous := current[r].segments;
        for i := 0 to |previous|
          invariant current == old(current)
          invariant archive == ArchiveWith(old(archive), r, Spec.Dropped(previous[..i], latest.segments, cause))
        {
          assert previous[..i + 1][..i] == previous[..i];
          ghost var lost := Spec.Dropped(previous[..i], latest.segments, cause);
          assert lost + [] == lost;
          if previous[i] !in latest.segments {
            assert Spec.Dropped(previous[..i + 1], latest.segments, cause) == lost + [Spec.Superseded(previous[i], cause)];
            ArchiveOneMore(old(archive), r, lost, Spec.Superseded(previous[i], cause));
            archive := ArchiveWith(archive, r, [Spec.Superseded(previous[i], cause)]);
          }
        }
        assert previous[..|previous|] == previous;
      }
      current := current[r := latest];
    }

    /** Files a stamped event under its id, source key and resource. */
    method File(e: Event)
      requires e.ledgerSeq.Some?
      modifies this`events, this`byEventId, this`bySourceKey, this`byResource, this`ledgerSeq, this`current, this`archive
      ensures Book() == Spec.Store(old(Book()), e)
    {
      hide Project;
      var r := e.resource;
      ledgerSeq := ledgerSeq[r := e.ledgerSeq.value];
      events := events + [e];
      byEventId := byEventId[e.id := e];
      bySourceKey := bySourceKey[Spec.KeyOf(e) := e];
      byResource := byResource[r := (if r in byResource then byResource[r] else []) + [e]];
      Reproject(r, e.id);
    }

    method AppendEvent(e: Event) returns (receipt: Spec.Receipt)
      modifies this
      ensures (View(), receipt) == Spec.Append(old(View()), e)
    {
      hide Spec.Store;
      var stored := None;
      if e.id in byEventId {
        stored := Some(byEventId[e.id]);
      } else if Spec.KeyOf(e) in bySourceKey {
        stored := Some(bySourceKey[Spec.KeyOf(e)]);
      }
      if stored.Some? {
        var s := stored.value;
        if Spec.Bare(s) == Spec.Bare(e) {
          return Spec.Duplicate(s.id, s.ledgerSeq.GetOr(0), s.recordedAt.GetOr(0));
        }
        receipt := QuarantineEvent(e, s);
        return;
      }
      var next := (if e.resource in ledgerSeq then ledgerSeq[e.resource] else 0) + 1;
      if e.ledgerSeq.Some? && e.ledgerSeq.value != next {
        return Spec.WrongLedgerSeq(next);
      }
      var stamped := e.(ledgerSeq := Some(next), recordedAt := Some(e.recordedAt.GetOr(clock)));
      File(stamped);
      receipt := Spec.Appended(e.id, next, stamped.recordedAt.value);
    }

    method QuarantineEvent(e: Event, stored: Event) returns (receipt: Spec.Receipt)
      modifies this`counter, this`quarantine, this`flags
      ensures (View(), receipt) == Spec.Quarantine(old(View()), e, stored)
    {
      var reason := if stored.id == e.id then Spec.SameIdOtherContent else Spec.SameSourceOtherContent;
      counter := counter + 1;
      quarantine := quarantine + [Spec.QuarantineEntry(counter, reason, stored.id, e)];
      flags := flags + [Spec.Flag(counter, reason, e.id)];
      receipt := Spec.Quarantined(reason, counter);
    }

    /** The event and its outbox entry under one sequence id. */
    method CommitWithOutbox(e: Event, notice: Spec.Notice) returns (receipt: Spec.Receipt)
      modifies this
      ensures (View(), receipt) == Spec.Commit(old(View()), e, notice)
    {
      hide Spec.Append;
      receipt := AppendEvent(e);
      if receipt.Appended? || receipt.Duplicate? {
        if receipt.id !in outboxByEvent {
          commitSeq := commitSeq + 1;
          outboxByEvent := outboxByEvent[receipt.id := |outbox|];
          outbox := outbox + [Spec.OutboxEntry(commitSeq, receipt.id, notice, false)];
        }
      }
    }

    /** Marks the entry delivered; an unknown id is reported and changes nothing. */
    method MarkOutboxDelivered(outboxId: nat) returns (known: bool)
      modifies this`outbox
      ensures View() == Spec.MarkDelivered(old(View()), outboxId)
      ensures known == exists i :: 0 <= i < |old(outbox)| && old(outbox)[i].outboxId == outboxId
    {
      var i := 0;
      while i < |outbox| && outbox[i].outboxId != outboxId
        invariant 0 <= i <= |outbox|
        invariant forall k :: 0 <= k < i ==> outbox[k].outboxId != outboxId
      {
        i := i + 1;
      }
      ghost var at := Spec.Position(outbox, outboxId);
      assert at == i by { assert i < |outbox| ==> at <= i; }
      known := i < |outbox|;
      if known {
        outbox := outbox[i := outbox[i].(delivered := true)];
      }
    }

    method SealedPeriodHit(e: Event, periods: seq<Spec.Period>) returns (hit: Option<Spec.Period>)
      ensures hit == Spec.SealedHit(e, periods)
    {
      for i := 0 to |periods|
        invariant Spec.SealedHit(e, periods) == Spec.SealedHit(e, periods[i..])
      {
        if Spec.Hits(periods[i], e) { return Some(periods[i]); }
      }
      hit := None;
    }

    /** Corrections outside every sealed window are appended; the others are flagged for manual handling. */
    method ApplyCorrections(corrections: seq<Event>, periods: seq<Spec.Period>) returns (receipts: seq<Spec.Receipt>)
      modifies this
      ensures (View(), receipts) == CorrectAll(old(View()), corrections, periods)
    {
      hide Spec.Append, Spec.SealedHit;
      receipts := [];
      for i := 0 to |corrections|
        invariant (View(), receipts) == CorrectAll(old(View()), corrections[..i], periods)
      {
        assert corrections[..i + 1][..i] == corrections[..i];
        var e := corrections[i];
        ghost var before := View();
        var hit := SealedPeriodHit(e, periods);
        var receipt: Spec.Receipt;
        if hit.None? {
          receipt := AppendEvent(e);
        } else {
          counter := counter + 1;
          flags := flags + [Spec.Flag(counter, Spec.IntersectsSealedPeriod(hit.value.name), e.id)];
          receipt := Spec.FlaggedManual(counter, hit.value.name);
        }
        assert (View(), receipt) == Spec.Correct(before, e, periods);
        receipts := receipts + [receipt];
      }
      assert corrections[..|corrections|] == corrections;
    }

    /** Replays persisted events through append; stops where one is not appended. */
    method ReplayEvents(persisted: seq<Event>) returns (ok: bool)
      requires View() == Spec.EMPTY
      modifies this
      ensures ok == Spec.Replayed(persisted).1
      ensures ok ==> View() == Spec.Replayed(persisted).0
    {
      hide Spec.Append;
      for i := 0 to |persisted|
        invariant Spec.Replayed(persisted[..i]) == (View(), true)
      {
        assert persisted[..i + 1][..i] == persisted[..i];
        var receipt := AppendEvent(persisted[i]);
        if !receipt.Appended? {
          NeverMind(persisted, i + 1);
          return false;
        }
      }
      assert persisted[..|persisted|] == persisted;
      ok := true;
    }

    /** Takes over everything of an image but its events. */
    method Adopt(image: Spec.Image)
      modifies this`quarantine, this`flags, this`outbox, this`outboxByEvent, this`commitSeq, this`counter, this`clock
      ensures quarantine == image.quarantine && flags == image.flags && outbox == image.outbox
      ensures outboxByEvent == Spec.IndexOutbox(image.outbox)
      ensures commitSeq == image.commitSeq && counter == image.counter && clock == image.clock
    {
      hide Spec.IndexOutbox;
      var index := IndexByEvent(image.outbox);
      quarantine, flags, outbox, outboxByEvent := image.quarantine, image.flags, image.outbox, index;
      commitSeq, counter, clock := image.commitSeq, image.counter, image.clock;
    }

    method Image() returns (image: Spec.Image)
      ensures image == Spec.ToImage(View())
    {
      image := Spec.Image(events, quarantine, flags, outbox, commitSeq, counter, clock);
    }
  }

  /** A ledger rebuilt by replaying the persisted events; null where one of them does not replay as appended. */
  method FromImage(image: Spec.Image) returns (ledger: EventLedger?)
    ensures ledger == null <==> Spec.FromImage(image).None?
    ensures ledger != null ==> Spec.FromImage(image) == Some(ledger.View())
  {
    hide Spec.IndexOutbox, Spec.Replayed;
    var l := new EventLedger();
    var ok := l.ReplayEvents(image.events);
    if !ok { return null; }
    l.Adopt(image);
    ledger := l;
  }

  method IndexByEvent(outbox: seq<Spec.OutboxEntry>) returns (index: map<EventId, nat>)
    ensures index == Spec.IndexOutbox(outbox)
  {
    index := map[];
    for i := 0 to |outbox|
      invariant index == Spec.IndexOutbox(outbox[..i])
    {
      assert outbox[..i + 1][..i] == outbox[..i];
      index := index[outbox[i].event := i];
    }
    assert outbox[..|outbox|] == outbox;
  }

  /** A replay that failed stays failed. */
  lemma {:induction false} NeverMind(events: seq<Event>, n: nat)
    requires n <= |events| && !Spec.Replayed(events[..n]).1
    ensures !Spec.Replayed(events).1
  {
    hide Spec.Append;
    if n < |events| {
      assert events[..|events| - 1][..n] == events[..n];
      NeverMind(events[..|events| - 1], n);
    } else {
      assert events[..n] == events;
    }
  }
}
