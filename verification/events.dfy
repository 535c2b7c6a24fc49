/** Cough and sneeze counting: the per-window tally of classifier results,
    the window counter of the inference task, the shared uint16_t event
    counters, and the read-and-reset drain of the reporting loop.

    Every lock-protected block is one atomic step; the classifier itself is an
    input (the labels and confidences it produced for a window). */
module Events {
  import opened Types

  /** A label counts only when its confidence is strictly above this. */
  const Threshold: real := 0.8
  const CoughLabel: string := "cough"
  const SneezeLabel: string := "sneeze"

  /** One entry of the classifier's result: a label and its confidence. */
  datatype Classification = Classification(name: string, value: real)

  predicate Hit(c: Classification, tag: string)
  {
    c.name == tag && c.value > Threshold
  }

  /** The number of entries with the given label and a confidence above the
      threshold. */
  function CountHits(cls: seq<Classification>, tag: string): nat
  {
    if |cls| == 0 then 0
    else CountHits(cls[..|cls| - 1], tag) + (if Hit(cls[|cls| - 1], tag) then 1 else 0)
  }

  /** No entry is both a cough and a sneeze, so the two counts together never
      exceed the number of entries. */
  lemma {:induction false} HitsDisjoint(cls: seq<Classification>)
    ensures CountHits(cls, CoughLabel) + CountHits(cls, SneezeLabel) <= |cls|
  {
    if |cls| > 0 {
      HitsDisjoint(cls[..|cls| - 1]);
      assert CoughLabel[0] != SneezeLabel[0];
    }
  }

  /** The counting loop of the inference task over one window's results:
      a cough hit, else a sneeze hit, else nothing. */
  method TallyWindow(cls: seq<Classification>) returns (cough: nat, sneeze: nat)
    ensures cough == CountHits(cls, CoughLabel)
    ensures sneeze == CountHits(cls, SneezeLabel)
    ensures cough + sneeze <= |cls|
  {
    cough, sneeze := 0, 0;
    var ix := 0;
    assert CoughLabel[0] != SneezeLabel[0];
    while ix < |cls|
      invariant 0 <= ix <= |cls|
      invariant cough == CountHits(cls[..ix], CoughLabel)
      invariant sneeze == CountHits(cls[..ix], SneezeLabel)
      invariant cough + sneeze <= ix
    {
      assert cls[..ix + 1][..ix] == cls[..ix];
      if cls[ix].name == CoughLabel && cls[ix].value > Threshold {
        cough := cough + 1;
      } else if cls[ix].name == SneezeLabel && cls[ix].value > Threshold {
        sneeze := sneeze + 1;
      }
      ix := ix + 1;
    }
    assert cls[..|cls|] == cls;
  }

  /** EI_DATA: the shared counters, uint16_t each. */
  datatype EiData = EiData(coughs: u16, sneezes: u16)

  /** edge_impulse_start zeroes both counters. */
  const InitialEiData: EiData := EiData(0, 0)

  /** The flush: each counter grows by its window count, wrapping at 2^16. */
  function AddEvents(d: EiData, cough: nat, sneeze: nat): (r: EiData)
    ensures (r.coughs - d.coughs - cough) % U16Modulus == 0
    ensures (r.sneezes - d.sneezes - sneeze) % U16Modulus == 0
    ensures d.coughs + cough < U16Modulus ==> r.coughs == d.coughs + cough
    ensures d.sneezes + sneeze < U16Modulus ==> r.sneezes == d.sneezes + sneeze
  {
    EiData(ToU16(d.coughs + cough), ToU16(d.sneezes + sneeze))
  }

  /** The read-and-reset of the reporting loop: the values it reports and the
      counters it leaves behind. */
  datatype Drained = Drained(reported: EiData, after: EiData)

  function Drain(d: EiData): (r: Drained)
    ensures r.reported == d
    ensures r.after == InitialEiData
  {
    Drained(d, InitialEiData)
  }

  /** The counters together with running totals of everything ever added and
      everything ever drained, for stating conservation. */
  datatype Ledger = Ledger(data: EiData, addedCoughs: nat, addedSneezes: nat,
                           drainedCoughs: nat, drainedSneezes: nat)

  const InitialLedger: Ledger := Ledger(InitialEiData, 0, 0, 0, 0)

  /** A step on the counters: a window flush or a drain. */
  datatype CounterOp = Flush(cough: nat, sneeze: nat) | DrainOp

  function Step(l: Ledger, op: CounterOp): Ledger
  {
    match op
    case Flush(c, s) =>
      l.(data := AddEvents(l.data, c, s), addedCoughs := l.addedCoughs + c,
         addedSneezes := l.addedSneezes + s)
    case DrainOp =>
      var r := Drain(l.data);
      l.(data := r.after, drainedCoughs := l.drainedCoughs + r.reported.coughs,
         drainedSneezes := l.drainedSneezes + r.reported.sneezes)
  }

  function Replay(l: Ledger, ops: seq<CounterOp>): Ledger
  {
    if |ops| == 0 then l else Step(Replay(l, ops[..|ops| - 1]), ops[|ops| - 1])
  }

  /** Nothing is lost modulo 2^16: what was added equals what was drained
      plus what the counters still hold. */
  predicate Conserved(l: Ledger)
  {
    && (l.addedCoughs - l.drainedCoughs - l.data.coughs) % U16Modulus == 0
    && (l.addedSneezes - l.drainedSneezes - l.data.sneezes) % U16Modulus == 0
  }

  lemma StepConserves(l: Ledger, op: CounterOp)
    requires Conserved(l)
    ensures Conserved(Step(l, op))
  {
    var l' := Step(l, op);
    match op
    case Flush(c, s) =>
      var x := l.addedCoughs - l.drainedCoughs - l.data.coughs;
      var y := l'.data.coughs - l.data.coughs - c;
      assert l'.addedCoughs - l'.drainedCoughs - l'.data.coughs == x - y;
      ModDifference(x, y);
      var u := l.addedSneezes - l.drainedSneezes - l.data.sneezes;
      var v := l'.data.sneezes - l.data.sneezes - s;
      assert l'.addedSneezes - l'.drainedSneezes - l'.data.sneezes == u - v;
      ModDifference(u, v);
    case DrainOp =>
  }

  lemma ModDifference(x: int, y: int)
    requires x % U16Modulus == 0 && y % U16Modulus == 0
    ensures (x - y) % U16Modulus == 0
  {
    assert x == (x / U16Modulus) * U16Modulus;
    assert y == (y / U16Modulus) * U16Modulus;
    assert x - y == (x / U16Modulus - y / U16Modulus) * U16Modulus;
  }

  /** Conservation holds across any sequence of flushes and drains from the
      zeroed counters. */
  lemma {:induction false} ReplayConserves(ops: seq<CounterOp>)
    ensures Conserved(Replay(InitialLedger, ops))
  {
    if |ops| > 0 {
      ReplayConserves(ops[..|ops| - 1]);
      StepConserves(Replay(InitialLedger, ops[..|ops| - 1]), ops[|ops| - 1]);
    }
  }

  /** The counts of a sequence of window flushes, added up without wrapping. */
  function TotalCoughs(ws: seq<CounterOp>): nat
  {
    if |ws| == 0 then 0
    else TotalCoughs(ws[..|ws| - 1]) + (if ws[|ws| - 1].Flush? then ws[|ws| - 1].cough else 0)
  }

  function TotalSneezes(ws: seq<CounterOp>): nat
  {
    if |ws| == 0 then 0
    else TotalSneezes(ws[..|ws| - 1]) + (if ws[|ws| - 1].Flush? then ws[|ws| - 1].sneeze else 0)
  }

  predicate AllFlushes(ws: seq<CounterOp>)
  {
    forall i :: 0 <= i < |ws| ==> ws[i].Flush?
  }

  /** Between two drains, the counters hold exactly the sum of the flushed
      window counts as long as that sum fits in a uint16_t. */
  lemma {:induction false} FlushesAccumulate(d: EiData, ws: seq<CounterOp>)
    requires AllFlushes(ws)
    requires d.coughs + TotalCoughs(ws) < U16Modulus && d.sneezes + TotalSneezes(ws) < U16Modulus
    ensures Replay(Ledger(d, 0, 0, 0, 0), ws).data
            == EiData(d.coughs + TotalCoughs(ws), d.sneezes + TotalSneezes(ws))
  {
    if |ws| > 0 {
      FlushesAccumulate(d, ws[..|ws| - 1]);
    }
  }

  /** A drain after a run of flushes from zeroed counters reports exactly the
      events of those windows, and a second drain reports nothing: no event is
      reported twice. */
  lemma DrainReportsWindows(ws: seq<CounterOp>)
    requires AllFlushes(ws)
    requires TotalCoughs(ws) < U16Modulus && TotalSneezes(ws) < U16Modulus
    ensures Drain(Replay(InitialLedger, ws).data).reported == EiData(TotalCoughs(ws), TotalSneezes(ws))
    ensures Drain(Drain(Replay(InitialLedger, ws).data).after).reported == InitialEiData
  {
    FlushesAccumulate(InitialEiData, ws);
  }

  /** What one pass of the inference loop got from the recorder and the
      classifier. */
  datatype Outcome = RecordFailed | ClassifierFailed | Classified(cls: seq<Classification>)

  /** The inference task's state: the window counter print_results and the
      shared counters. */
  datatype Inference = Inference(printResults: int, ei: EiData)

  /** print_results starts at minus the number of slices per model window. */
  function InitialInference(slices: nat): Inference
  {
    Inference(-(slices as int), InitialEiData)
  }

  /** One pass of the inference loop. A failed record or classifier run skips
      the pass without touching the counter; otherwise the counter advances,
      and once it reaches the slice count the window's events are flushed and
      the counter restarts at zero. */
  function Cycle(s: Inference, slices: nat, o: Outcome): (r: Inference)
    ensures !o.Classified? ==> r == s
    ensures o.Classified? && s.printResults + 1 < slices ==> r == s.(printResults := s.printResults + 1)
    ensures o.Classified? && s.printResults + 1 >= slices ==>
              r == Inference(0, AddEvents(s.ei, CountHits(o.cls, CoughLabel), CountHits(o.cls, SneezeLabel)))
  {
    match o
    case RecordFailed => s
    case ClassifierFailed => s
    case Classified(cls) =>
      var pr := s.printResults + 1;
      if pr >= slices then
        Inference(0, AddEvents(s.ei, CountHits(cls, CoughLabel), CountHits(cls, SneezeLabel)))
      else
        s.(printResults := pr)
  }

  function Run(s: Inference, slices: nat, os: seq<Outcome>): Inference
  {
    if |os| == 0 then s else Cycle(Run(s, slices, os[..|os| - 1]), slices, os[|os| - 1])
  }

  /** The number of passes that reached the classifier successfully. */
  function Successes(os: seq<Outcome>): nat
  {
    if |os| == 0 then 0
    else Successes(os[..|os| - 1]) + (if os[|os| - 1].Classified? then 1 else 0)
  }

  /** Passes that do not reach the slice count only advance the counter, by
      the number of successful passes, and leave the events alone. */
  lemma {:induction false} QuietRun(s: Inference, slices: nat, os: seq<Outcome>)
    requires s.printResults + Successes(os) < slices
    ensures Run(s, slices, os) == s.(printResults := s.printResults + Successes(os))
  {
    if |os| > 0 {
      QuietRun(s, slices, os[..|os| - 1]);
    }
  }

  /** After a run, the next successful pass flushes exactly when the run's
      successes brought the counter to slices - 1. */
  lemma FlushAfter(s: Inference, slices: nat, os: seq<Outcome>, cls: seq<Classification>)
    requires s.printResults + Successes(os) == slices - 1
    ensures Run(s, slices, os + [Classified(cls)])
            == Inference(0, AddEvents(s.ei, CountHits(cls, CoughLabel), CountHits(cls, SneezeLabel)))
  {
    QuietRun(s, slices, os);
    assert (os + [Classified(cls)])[..|os|] == os;
  }

  /** The first flush: from the initial counter, 2 * slices - 1 successful
      passes flush nothing and the next one flushes. */
  lemma FirstFlush(slices: nat, os: seq<Outcome>, cls: seq<Classification>)
    requires slices >= 1 && Successes(os) == 2 * slices - 1
    ensures Run(InitialInference(slices), slices, os).ei == InitialEiData
    ensures Run(InitialInference(slices), slices, os + [Classified(cls)])
            == Inference(0, AddEvents(InitialEiData, CountHits(cls, CoughLabel), CountHits(cls, SneezeLabel)))
  {
    QuietRun(InitialInference(slices), slices, os);
    FlushAfter(InitialInference(slices), slices, os, cls);
  }

  /** Every later flush: after a flush the counter is zero, so slices - 1
      successful passes flush nothing and the next one flushes. */
  lemma LaterFlush(ei: EiData, slices: nat, os: seq<Outcome>, cls: seq<Classification>)
    requires slices >= 1 && Successes(os) == slices - 1
    ensures Run(Inference(0, ei), slices, os).ei == ei
    ensures Run(Inference(0, ei), slices, os + [Classified(cls)])
            == Inference(0, AddEvents(ei, CountHits(cls, CoughLabel), CountHits(cls, SneezeLabel)))
  {
    QuietRun(Inference(0, ei), slices, os);
    FlushAfter(Inference(0, ei), slices, os, cls);
  }
}
