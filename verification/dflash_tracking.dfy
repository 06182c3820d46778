/**
 What the DFlash draft model has been fed for one request, over any sequence of prefill and decode
 steps: the view of a request that the proposer object maintains, and the laws of whole runs.
 */
module DFlashTracking {

  /** The hidden state the target computed for a position of a request, or other buffer contents. */
  datatype Hidden = HiddenOf(req: nat, pos: int) | Junk

  /** One target position fed to the draft model, with the hidden row it was paired with. */
  datatype Feed = Feed(pos: int, hidden: Hidden)

  /** A request's state in the proposer, and everything fed for it so far. */
  datatype View = View(counter: int, fromPrefill: bool, fed: seq<Feed>)

  /** A request the proposer has not seen. */
  const FRESH := View(0, false, [])

  /** Positions from, from + 1, ... with the target's hidden rows. */
  function Rows(req: nat, from: int, n: nat): (rows: seq<Feed>)
    ensures |rows| == n
  {
    seq(n, t => Feed(from + t, HiddenOf(req, from + t)))
  }

  /** Prefill of n tokens that start at position `from`. */
  function Prefilled(req: nat, v: View, from: nat, n: nat, final: bool): View {
    View(from + n - 1, final || v.fromPrefill, v.fed + Rows(req, from, n))
  }

  /** A propose call for a request that just got `adv` tokens, with the given rows in the hidden buffer. */
  function Advanced(v: View, hidden: seq<Hidden>, adv: nat, commit: bool): View
    requires adv <= |hidden|
  {
    if v.fromPrefill && commit then v.(fromPrefill := false)
    else View(v.counter + adv, false, v.fed + seq(adv, j requires 0 <= j < adv => Feed(v.counter + 1 + j, hidden[j])))
  }

  /** The positions fed are 0 .. counter, each once, in order, each with its own hidden row. */
  ghost predicate Tracks(req: nat, v: View) {
    v.counter >= 0 && v.fed == Rows(req, 0, v.counter + 1)
  }

  /** The engine's steps for one request; `hidden` is the request's row of the decode hidden buffer. */
  datatype Event =
    | Partial(n: nat)
    | Final(n: nat, commit: bool, hidden: seq<Hidden>)
    | Decode(adv: nat, commit: bool, hidden: seq<Hidden>)

  /** Where a request is: tokens computed while prefilling, or all its tokens while decoding. */
  datatype Progress = Prefilling(computed: nat) | Decoding(tokens: nat)

  /** The events the engine can send: chunks while prefilling, then verified tokens with their hidden rows. */
  ghost predicate Legal(req: nat, p: Progress, e: Event) {
    match e
    case Partial(n) => p.Prefilling? && n > 0
    case Final(n, _, hidden) => p.Prefilling? && n > 0 && |hidden| > 0
    case Decode(adv, _, hidden) =>
      p.Decoding? && 0 < adv <= |hidden| && forall j :: 0 <= j < adv ==> hidden[j] == HiddenOf(req, p.tokens - 1 + j)
  }

  function After(p: Progress, e: Event): Progress {
    match e
    case Partial(n) => if p.Prefilling? then Prefilling(p.computed + n) else p
    case Final(n, _, _) => if p.Prefilling? then Decoding(p.computed + n + 1) else p
    case Decode(adv, _, _) => if p.Decoding? then Decoding(p.tokens + adv) else p
  }

  function Apply(req: nat, p: Progress, v: View, e: Event): View
    requires e.Final? ==> |e.hidden| > 0
    requires e.Decode? ==> e.adv <= |e.hidden|
  {
    match e
    case Partial(n) => Prefilled(req, v, if p.Prefilling? then p.computed else 0, n, false)
    case Final(n, commit, hidden) => Advanced(Prefilled(req, v, if p.Prefilling? then p.computed else 0, n, true), hidden, 1, commit)
    case Decode(adv, commit, hidden) => Advanced(v, hidden, adv, commit)
  }

  /** What holds between steps when the final-prefill step was committed. */
  ghost predicate InStep(req: nat, p: Progress, v: View) {
    match p
    case Prefilling(computed) =>
      && !v.fromPrefill
      && (computed == 0 ==> v.fed == [])
      && (computed > 0 ==> v.counter == computed - 1 && Tracks(req, v))
    case Decoding(tokens) => !v.fromPrefill && v.counter + 2 == tokens && Tracks(req, v)
  }

  lemma RowsJoin(req: nat, a: nat, b: nat)
    ensures Rows(req, 0, a) + Rows(req, a, b) == Rows(req, 0, a + b)
  {
  }

  lemma EventKeepsStep(req: nat, p: Progress, v: View, e: Event)
    requires InStep(req, p, v) && Legal(req, p, e)
    requires e.Final? ==> e.commit
    ensures InStep(req, After(p, e), Apply(req, p, v, e))
  {
    match e
    case Partial(n) => RowsJoin(req, p.computed, n);
    case Final(n, _, _) => RowsJoin(req, p.computed, n);
    case Decode(adv, _, hidden) =>
      RowsJoin(req, v.counter + 1, adv);
      assert seq(adv, j requires 0 <= j < adv => Feed(v.counter + 1 + j, hidden[j])) == Rows(req, v.counter + 1, adv);
  }

  /** A request's life: its events in order, with its progress and view between them. */
  ghost predicate Life(req: nat, events: seq<Event>, ps: seq<Progress>, vs: seq<View>) {
    && |ps| == |vs| == |events| + 1
    && ps[0] == Prefilling(0) && vs[0] == FRESH
    && forall n :: 0 <= n < |events| ==>
         Legal(req, ps[n], events[n]) && ps[n + 1] == After(ps[n], events[n]) && vs[n + 1] == Apply(req, ps[n], vs[n], events[n])
  }

  /** A request's life so far. */
  datatype Trace = Trace(events: seq<Event>, ps: seq<Progress>, vs: seq<View>)

  /** t is a life of the request that has led to view v and progress p. */
  ghost predicate Follows(req: nat, t: Trace, p: Progress, v: View) {
    Life(req, t.events, t.ps, t.vs) && t.ps[|t.events|] == p && t.vs[|t.events|] == v
  }

  const NEWBORN := Trace([], [Prefilling(0)], [FRESH])

  /** A request that the proposer has not seen begins its life. */
  lemma LifeBegins(req: nat)
    ensures Follows(req, NEWBORN, Prefilling(0), FRESH)
  {
  }

  function Longer(t: Trace, e: Event, p: Progress, v: View): Trace {
    Trace(t.events + [e], t.ps + [p], t.vs + [v])
  }

  lemma LifeGoesOn(req: nat, t: Trace, p: Progress, v: View, e: Event)
    requires Follows(req, t, p, v) && Legal(req, p, e)
    ensures Follows(req, Longer(t, e, After(p, e), Apply(req, p, v, e)), After(p, e), Apply(req, p, v, e))
  {
    var t' := Longer(t, e, After(p, e), Apply(req, p, v, e));
    forall n | 0 <= n < |t'.events|
      ensures Legal(req, t'.ps[n], t'.events[n]) && t'.ps[n + 1] == After(t'.ps[n], t'.events[n])
      ensures t'.vs[n + 1] == Apply(req, t'.ps[n], t'.vs[n], t'.events[n])
    {
    }
  }

  /** What the target's decode call leaves in a request's row of the hidden buffer: input j is position computed + j. */
  function DecodeRows(req: nat, computed: nat, w: nat): (hidden: seq<Hidden>)
    ensures |hidden| == w
  {
    seq(w, j requires 0 <= j < w => HiddenOf(req, computed + j))
  }

  /** The rows of a decode that starts at the newest token are those a decode event asks for. */
  lemma DecodeIsLegal(req: nat, tokens: nat, adv: nat, commit: bool, w: nat)
    requires tokens > 0 && 0 < adv <= w
    ensures Legal(req, Decoding(tokens), Decode(adv, commit, DecodeRows(req, tokens - 1, w)))
  {
  }

  /** Whatever the chunking, the acceptances and the later gate, a committed request stays in step. */
  lemma {:induction false} LifeStaysInStep(req: nat, events: seq<Event>, ps: seq<Progress>, vs: seq<View>, n: nat)
    requires Life(req, events, ps, vs) && n <= |events|
    requires forall m :: 0 <= m < n && events[m].Final? ==> events[m].commit
    ensures InStep(req, ps[n], vs[n])
    ensures ps[n].Prefilling? ==> |vs[n].fed| == ps[n].computed && forall t :: 0 <= t < |vs[n].fed| ==> vs[n].fed[t] == Feed(t, HiddenOf(req, t))
    decreases n
  {
    if n > 0 {
      LifeStaysInStep(req, events, ps, vs, n - 1);
      EventKeepsStep(req, ps[n - 1], vs[n - 1], events[n - 1]);
    }
  }

  /** A final-prefill step with the gate closed feeds one position too many, and the lag never goes away. */
  ghost predicate OffByOne(req: nat, p: Progress, v: View) {
    p.Decoding? && !v.fromPrefill && v.counter + 1 == p.tokens
  }

  lemma UncommittedFinal(req: nat, p: Progress, v: View, e: Event)
    requires InStep(req, p, v) && Legal(req, p, e) && e.Final? && !e.commit
    ensures OffByOne(req, After(p, e), Apply(req, p, v, e))
    ensures var w := Apply(req, p, v, e); |w.fed| == |v.fed| + e.n + 1 && w.fed[|w.fed|-1] == Feed(p.computed + e.n, e.hidden[0])
  {
  }

  lemma OffByOneStays(req: nat, p: Progress, v: View, e: Event)
    requires OffByOne(req, p, v) && Legal(req, p, e)
    ensures OffByOne(req, After(p, e), Apply(req, p, v, e))
  {
  }

  ghost predicate CommittedSoFar(events: seq<Event>, n: nat)
    requires n <= |events|
  {
    forall m :: 0 <= m < n && events[m].Final? ==> events[m].commit
  }

  lemma {:induction false} LifeOffByOne(req: nat, events: seq<Event>, ps: seq<Progress>, vs: seq<View>, n: nat)
    requires Life(req, events, ps, vs) && n <= |events|
    requires !CommittedSoFar(events, n)
    ensures OffByOne(req, ps[n], vs[n])
    decreases n
  {
    if CommittedSoFar(events, n - 1) {
      LifeStaysInStep(req, events, ps, vs, n - 1);
      UncommittedFinal(req, ps[n - 1], vs[n - 1], events[n - 1]);
    } else {
      LifeOffByOne(req, events, ps, vs, n - 1);
      OffByOneStays(req, ps[n - 1], vs[n - 1], events[n - 1]);
    }
  }

  /**
   After any step of a decoding request, the counter trails its token count by two exactly when its
   final-prefill step was proposed with the gate open; then the feeds so far are exactly right.
   */
  lemma InStepIffCommitted(req: nat, events: seq<Event>, ps: seq<Progress>, vs: seq<View>, n: nat)
    requires Life(req, events, ps, vs) && n <= |events| && ps[n].Decoding?
    ensures vs[n].counter + 2 == ps[n].tokens <==> CommittedSoFar(events, n)
    ensures CommittedSoFar(events, n) ==> |vs[n].fed| == ps[n].tokens - 1
    ensures CommittedSoFar(events, n) ==> forall t :: 0 <= t < |vs[n].fed| ==> vs[n].fed[t] == Feed(t, HiddenOf(req, t))
  {
    if CommittedSoFar(events, n) {
      LifeStaysInStep(req, events, ps, vs, n);
    } else {
      LifeOffByOne(req, events, ps, vs, n);
    }
  }

  /** The smallest life that goes out of step: a one-token prompt, prefilled while the gate is closed. */
  lemma GateClosedExample()
    ensures var e := Final(1, false, [Junk]);
            var v := Apply(7, Prefilling(0), FRESH, e);
            After(Prefilling(0), e) == Decoding(2) && v.counter == 1 && v.fed == [Feed(0, HiddenOf(7, 0)), Feed(1, Junk)]
  {
  }
}
