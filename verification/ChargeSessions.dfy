/** Charge-session bookkeeping of internal/controller/controller.go: the calls
    it makes to the store and the statistics it keeps between them. */
module ChargeSessions {
  import opened Prelude

  datatype Entry =
    | Start(id: int)
    | Sample(amps: int)
    | End(id: int, energyKWh: real, peakAmps: int, avgAmps: real, ok: bool)

  /** The session fields of the controller. `log` is the history of successful
      StartSession calls, recorded samples and EndSession calls. */
  datatype Ledger = Ledger(
    activeSessionID: int,
    energy: real,
    peakAmps: int,
    ampTotal: int,
    samples: nat,
    log: seq<Entry>)

  const NoSession := Ledger(0, 0.0, 0, 0, 0, [])

  function ResetStats(l: Ledger): Ledger {
    l.(energy := 0.0, peakAmps := 0, ampTotal := 0, samples := 0)
  }

  /** `id` is the store's answer: None when the insert failed. */
  function Begin(l: Ledger, id: Option<int>): Ledger {
    var zeroed := ResetStats(l);
    if id.None? then zeroed
    else zeroed.(activeSessionID := id.value, log := l.log + [Start(id.value)])
  }

  function Finish(l: Ledger, ok: bool): Ledger {
    if l.activeSessionID == 0 then l
    else
      var avg := if l.samples > 0 then l.ampTotal as real / l.samples as real else 0.0;
      ResetStats(l).(
        activeSessionID := 0,
        log := l.log + [End(l.activeSessionID, l.energy, l.peakAmps, avg, ok)])
  }

  /** `kWhPerAmp` is the energy of one ampere over one poll interval. */
  function Record(kWhPerAmp: real, l: Ledger, charging: bool, amps: int): Ledger {
    if !charging || amps <= 0 || l.activeSessionID == 0 then l
    else l.(
      peakAmps := Max(l.peakAmps, amps),
      ampTotal := l.ampTotal + amps,
      samples := l.samples + 1,
      energy := l.energy + amps as real * kWhPerAmp,
      log := l.log + [Sample(amps)])
  }

  // ----- The reference: replaying the log against its samples -----

  function Sum(s: seq<int>): int {
    if s == [] then 0 else Sum(s[..|s| - 1]) + s[|s| - 1]
  }

  function Peak(s: seq<int>): int {
    if s == [] then 0 else Max(Peak(s[..|s| - 1]), s[|s| - 1])
  }

  function Mean(s: seq<int>): real {
    if s == [] then 0.0 else Sum(s) as real / |s| as real
  }

  function Energy(kWhPerAmp: real, s: seq<int>): real {
    Sum(s) as real * kWhPerAmp
  }

  datatype Bracket = Closed | Open(id: int, samples: seq<int>) | Broken

  /** A log is well bracketed when every End closes the Start before it and
      carries the statistics of exactly the samples in between. */
  function Replay(kWhPerAmp: real, log: seq<Entry>): Bracket {
    if log == [] then Closed
    else Follow(kWhPerAmp, Replay(kWhPerAmp, log[..|log| - 1]), log[|log| - 1])
  }

  function Follow(kWhPerAmp: real, b: Bracket, e: Entry): Bracket {
    match (b, e)
    case (Closed, Start(id)) => if id != 0 then Open(id, []) else Broken
    case (Open(id, s), Sample(amps)) => if amps > 0 then Open(id, s + [amps]) else Broken
    case (Open(id, s), End(id', energy, peak, avg, _)) =>
      if id' == id && energy == Energy(kWhPerAmp, s) && peak == Peak(s) && avg == Mean(s) then Closed else Broken
    case _ => Broken
  }

  /** The bookkeeping agrees with its log. */
  ghost predicate Consistent(kWhPerAmp: real, l: Ledger) {
    match Replay(kWhPerAmp, l.log)
    case Broken => false
    case Closed => l.activeSessionID == 0 && ResetStats(l) == l
    case Open(id, s) =>
      && l.activeSessionID == id != 0
      && l.peakAmps == Peak(s) && l.ampTotal == Sum(s) && l.samples == |s|
      && l.energy == Energy(kWhPerAmp, s)
  }

  lemma ReplayAppend(kWhPerAmp: real, log: seq<Entry>, e: Entry)
    ensures Replay(kWhPerAmp, log + [e]) == Follow(kWhPerAmp, Replay(kWhPerAmp, log), e)
  {
    assert (log + [e])[..|log|] == log;
  }

  lemma ConsistentBegin(kWhPerAmp: real, l: Ledger, id: Option<int>)
    requires Consistent(kWhPerAmp, l) && l.activeSessionID == 0
    requires id.Some? ==> id.value > 0
    ensures Consistent(kWhPerAmp, Begin(l, id))
  {
    if id.Some? {
      ReplayAppend(kWhPerAmp, l.log, Start(id.value));
    }
  }

  lemma ConsistentFinish(kWhPerAmp: real, l: Ledger, ok: bool)
    requires Consistent(kWhPerAmp, l)
    ensures Consistent(kWhPerAmp, Finish(l, ok)) && Finish(l, ok).activeSessionID == 0
  {
    if l.activeSessionID != 0 {
      var l' := Finish(l, ok);
      ReplayAppend(kWhPerAmp, l.log, l'.log[|l.log|]);
    }
  }

  lemma ConsistentRecord(kWhPerAmp: real, l: Ledger, charging: bool, amps: int)
    requires Consistent(kWhPerAmp, l)
    ensures Consistent(kWhPerAmp, Record(kWhPerAmp, l, charging, amps))
    ensures Record(kWhPerAmp, l, charging, amps).activeSessionID == l.activeSessionID
  {
    hide Energy, Sum, Peak;
    if charging && amps > 0 && l.activeSessionID != 0 {
      ReplayAppend(kWhPerAmp, l.log, Sample(amps));
      StatsAppend(kWhPerAmp, Replay(kWhPerAmp, l.log).samples, amps);
    }
  }

  lemma StatsAppend(kWhPerAmp: real, s: seq<int>, a: int)
    ensures Sum(s + [a]) == Sum(s) + a && Peak(s + [a]) == Max(Peak(s), a)
    ensures Energy(kWhPerAmp, s + [a]) == Energy(kWhPerAmp, s) + a as real * kWhPerAmp
  {
    assert (s + [a])[..|s|] == s;
    Distribute(Sum(s) as real, a as real, kWhPerAmp);
  }

  lemma Distribute(x: real, y: real, k: real)
    ensures (x + y) * k == x * k + y * k
  {
  }

  lemma {:induction false} MeanAtMostPeak(s: seq<int>)
    requires forall i :: 0 <= i < |s| ==> s[i] > 0
    ensures Mean(s) <= Peak(s) as real
  {
    SumAtMostPeak(s);
    if s != [] {
      assert Sum(s) as real <= Peak(s) as real * |s| as real;
    }
  }

  lemma {:induction false} SumAtMostPeak(s: seq<int>)
    ensures Sum(s) <= |s| * Peak(s)
  {
    if s != [] {
      var t := s[..|s| - 1];
      SumAtMostPeak(t);
      assert |t| * Peak(t) <= |t| * Peak(s);
    }
  }

  lemma {:induction false} ReplaySamplesPositive(kWhPerAmp: real, log: seq<Entry>)
    ensures Replay(kWhPerAmp, log).Open? ==>
              forall i :: 0 <= i < |Replay(kWhPerAmp, log).samples| ==> Replay(kWhPerAmp, log).samples[i] > 0
  {
    if log != [] {
      ReplaySamplesPositive(kWhPerAmp, log[..|log| - 1]);
    }
  }

  lemma {:induction false} ReplayPrefix(kWhPerAmp: real, log: seq<Entry>, i: nat)
    requires i <= |log| && Replay(kWhPerAmp, log) != Broken
    ensures Replay(kWhPerAmp, log[..i]) != Broken
  {
    if i < |log| {
      var init := log[..|log| - 1];
      ReplayPrefix(kWhPerAmp, init, i);
      assert init[..i] == log[..i];
    } else {
      assert log[..i] == log;
    }
  }

  /** Every EndSession call reports the peak, mean and energy of the samples
      since its own StartSession, and its mean does not exceed its peak. */
  lemma EndReportsItsSamples(kWhPerAmp: real, log: seq<Entry>, j: nat)
    requires j < |log| && log[j].End? && Replay(kWhPerAmp, log) != Broken
    ensures var open := Replay(kWhPerAmp, log[..j]);
            && open.Open? && open.id == log[j].id
            && log[j].peakAmps == Peak(open.samples)
            && log[j].avgAmps == Mean(open.samples) <= log[j].peakAmps as real
            && log[j].energyKWh == Energy(kWhPerAmp, open.samples)
    ensures Replay(kWhPerAmp, log[..j + 1]) == Closed
  {
    ReplayPrefix(kWhPerAmp, log, j + 1);
    assert log[..j + 1][..j] == log[..j];
    ReplaySamplesPositive(kWhPerAmp, log[..j]);
    MeanAtMostPeak(Replay(kWhPerAmp, log[..j]).samples);
  }

  /** The open session's samples are the log entries since its Start. */
  lemma {:induction false} OpenSince(kWhPerAmp: real, log: seq<Entry>) returns (i: nat)
    requires Replay(kWhPerAmp, log).Open?
    ensures i < |log| && log[i] == Start(Replay(kWhPerAmp, log).id)
    ensures |log| - i - 1 == |Replay(kWhPerAmp, log).samples|
    ensures forall k :: i < k < |log| ==> log[k] == Sample(Replay(kWhPerAmp, log).samples[k - i - 1])
  {
    var last := log[|log| - 1];
    if last.Start? {
      i := |log| - 1;
    } else {
      i := OpenSince(kWhPerAmp, log[..|log| - 1]);
    }
  }

  // ----- The successful calls alone -----

  /** The calls the store carried out: failed EndSession calls are dropped. */
  function Successes(log: seq<Entry>): seq<Entry> {
    if log == [] then []
    else
      var e := log[|log| - 1];
      Successes(log[..|log| - 1]) + (if e.Start? || (e.End? && e.ok) then [e] else [])
  }

  /** (Start End)* Start? with matching ids. */
  predicate Alternating(calls: seq<Entry>) {
    forall i :: 0 <= i < |calls| ==> InPlace(calls, i)
  }

  predicate InPlace(calls: seq<Entry>, i: nat)
    requires i < |calls|
  {
    if i % 2 == 0 then calls[i].Start?
    else calls[i - 1].Start? && calls[i].End? && calls[i].id == calls[i - 1].id
  }

  predicate StartAfterFailedEnd(log: seq<Entry>) {
    exists i, j :: 0 <= i < j < |log| && log[i].End? && !log[i].ok && log[j].Start?
  }

  predicate HasFailedEnd(log: seq<Entry>) {
    exists i :: 0 <= i < |log| && log[i].End? && !log[i].ok
  }

  ghost predicate SuccessShape(kWhPerAmp: real, log: seq<Entry>) {
    var calls := Successes(log);
    && (StartAfterFailedEnd(log) ==> !Alternating(calls))
    && (!StartAfterFailedEnd(log) ==>
          && Alternating(calls)
          && (|calls| % 2 == 1 <==> Replay(kWhPerAmp, log).Open? || HasFailedEnd(log))
          && (Replay(kWhPerAmp, log).Open? ==>
                !HasFailedEnd(log) && calls[|calls| - 1] == Start(Replay(kWhPerAmp, log).id)))
  }

  lemma AlternatingAppend(calls: seq<Entry>, e: Entry)
    ensures Alternating(calls + [e]) <==> Alternating(calls) && InPlace(calls + [e], |calls|)
  {
    var all := calls + [e];
    forall i | 0 <= i < |calls|
      ensures InPlace(calls, i) == InPlace(all, i)
    {
      assert i % 2 == 1 ==> all[i - 1] == calls[i - 1];
    }
  }

  lemma {:induction false} SuccessShapeHolds(kWhPerAmp: real, log: seq<Entry>)
    requires Replay(kWhPerAmp, log) != Broken
    ensures SuccessShape(kWhPerAmp, log)
  {
    if log == [] {
    } else {
      var init := log[..|log| - 1];
      var e := log[|log| - 1];
      assert log == init + [e];
      SuccessShapeHolds(kWhPerAmp, init);
      FailuresOfAppend(init, e);
      SuccessShapeStep(kWhPerAmp, init, e);
    }
  }

  lemma FailuresOfAppend(log: seq<Entry>, e: Entry)
    ensures HasFailedEnd(log + [e]) <==> HasFailedEnd(log) || (e.End? && !e.ok)
    ensures StartAfterFailedEnd(log + [e]) <==> StartAfterFailedEnd(log) || (e.Start? && HasFailedEnd(log))
  {
    var all := log + [e];
    if HasFailedEnd(log) {
      var i :| 0 <= i < |log| && log[i].End? && !log[i].ok;
      assert all[i] == log[i] && all[|log|] == e;
    }
    if StartAfterFailedEnd(log) {
      var i, j :| 0 <= i < j < |log| && log[i].End? && !log[i].ok && log[j].Start?;
      assert all[i] == log[i] && all[j] == log[j];
    }
    if e.End? && !e.ok {
      assert all[|log|] == e;
    }
  }

  lemma SuccessShapeStep(kWhPerAmp: real, log: seq<Entry>, e: Entry)
    requires Replay(kWhPerAmp, log + [e]) != Broken
    requires SuccessShape(kWhPerAmp, log)
    requires HasFailedEnd(log + [e]) <==> HasFailedEnd(log) || (e.End? && !e.ok)
    requires StartAfterFailedEnd(log + [e]) <==> StartAfterFailedEnd(log) || (e.Start? && HasFailedEnd(log))
    ensures SuccessShape(kWhPerAmp, log + [e])
  {
    hide StartAfterFailedEnd, HasFailedEnd, Alternating, Energy, Peak, Mean, Replay;
    ReplayAppend(kWhPerAmp, log, e);
    assert (log + [e])[..|log|] == log;
    var calls := Successes(log);
    AlternatingAppend(calls, e);
    assert calls + [] == calls;
    assert (calls + [e])[|calls|] == e;
  }

  /** The successful calls alone form (Start End)* Start? exactly when no
      StartSession follows a failed EndSession. */
  lemma SuccessfulCallsBracketed(kWhPerAmp: real, log: seq<Entry>)
    requires Replay(kWhPerAmp, log) != Broken
    ensures Alternating(Successes(log)) <==> !StartAfterFailedEnd(log)
  {
    SuccessShapeHolds(kWhPerAmp, log);
  }
}
