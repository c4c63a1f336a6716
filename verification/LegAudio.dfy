/** Where every frame pushed to a leg is, whatever the interleaving. */
module LegAudio {
  import opened Ring
  import opened Leg
  import opened LegSpeech

  /** An utterance's claim on one drain. */
  datatype Mark = Mark(cut: nat, batch: seq<Frame>)

  function MarksOf(log: seq<Entry>): seq<Mark> {
    seq(|log|, i requires 0 <= i < |log| => Mark(log[i].e.cut, log[i].e.batch))
  }

  function HandMarks(l: Leg): seq<Mark> {
    match l.runner
    case Deciding(u) => [Mark(u.cut, u.batch)]
    case Translating(u) => [Mark(u.cut, u.batch)]
    case Synthesizing(u) => [Mark(u.cut, u.batch)]
    case FirstChunk(u, _) => [Mark(u.cut, u.batch)]
    case Sending(e) => [Mark(e.cut, e.batch)]
    case _ => if l.drainer.Flushing? then [Mark(l.drainer.e.cut, l.drainer.e.batch)] else []
  }

  function Marks(l: Leg): seq<Mark> {
    MarksOf(l.log) + HandMarks(l)
  }

  /** Each mark has its own drain and exactly its batch, in order; only drains that
      found nothing have no mark. */
  ghost predicate MarksMatch(cuts: seq<Cut>, marks: seq<Mark>) {
    && (forall i :: 0 <= i < |marks| ==> marks[i].cut < |cuts| && marks[i].batch == cuts[marks[i].cut].batch)
    && (forall i, j :: 0 <= i < j < |marks| ==> marks[i].cut < marks[j].cut)
    && (forall c :: 0 <= c < |cuts| && cuts[c].batch != [] ==> exists i :: 0 <= i < |marks| && marks[i].cut == c)
  }

  /** Each non-empty frame pushed was dropped by the cap, or is still in the ring, or is
      in the batch of exactly one utterance. */
  ghost predicate Placed(cfg: Config, l: Leg) {
    Partitioned(cfg.cap, l.pushed, l.ring) && MarksMatch(l.ring.cuts, Marks(l))
  }

  lemma MarkAdded(h: History, marks: seq<Mark>)
    requires MarksMatch(h.cuts, marks)
    ensures MarksMatch(Drained(h).cuts, marks + [Mark(|h.cuts|, h.frames)])
    ensures h.frames == [] ==> MarksMatch(Drained(h).cuts, marks)
  {
    var more := marks + [Mark(|h.cuts|, h.frames)];
    var cuts := Drained(h).cuts;
    assert more[|marks|].cut == |h.cuts|;
    forall c | 0 <= c < |cuts| && cuts[c].batch != []
      ensures exists i :: 0 <= i < |more| && more[i].cut == c
    {
      if c < |h.cuts| {
        assert h.cuts[c].batch != [];
        var i :| 0 <= i < |marks| && marks[i].cut == c;
        assert more[i].cut == c;
      }
    }
    if h.frames == [] {
      assert forall c :: 0 <= c < |cuts| && cuts[c].batch != [] ==> c < |h.cuts| && h.cuts[c].batch != [];
    }
  }

  /** A step drains for one utterance, or for none and finds nothing, or does not drain. */
  ghost predicate KeepsMarks(l: Leg, l': Leg) {
    && l'.pushed == l.pushed
    && (if l'.ring == l.ring then Marks(l') == Marks(l)
        else
          && l'.ring == Drained(l.ring)
          && (Marks(l') == Marks(l) + [Mark(|l.ring.cuts|, l.ring.frames)] || (Marks(l') == Marks(l) && l.ring.frames == [])))
  }

  lemma MarksKept(cfg: Config, l: Leg, l': Leg)
    requires cfg.cap > 0 && Placed(cfg, l) && KeepsMarks(l, l')
    ensures Placed(cfg, l')
  {
    if l'.ring != l.ring {
      DrainPartitions(cfg.cap, l.pushed, l.ring);
      MarkAdded(l.ring, Marks(l));
    }
  }

  lemma RunMarks(cfg: Config, l: Leg, step: RunStep, closing: bool, cancelled: bool)
    requires Roles(l) && RunEnabled(l, step, cancelled)
    ensures KeepsMarks(l, RunApply(cfg, l, step, closing, cancelled))
  {
  }

  lemma FirstChunkMarks(cfg: Config, l: Leg, step: TalkStep, cancelled: bool)
    requires Roles(l) && l.runner.FirstChunk? && TalkEnabled(l, step, cancelled)
    ensures KeepsMarks(l, TalkApply(cfg, l, step, cancelled))
  {
  }

  lemma TranslatingMarks(cfg: Config, l: Leg, step: TalkStep, cancelled: bool)
    requires Roles(l) && l.runner.Translating? && TalkEnabled(l, step, cancelled)
    ensures KeepsMarks(l, TalkApply(cfg, l, step, cancelled))
  {
  }

  lemma TalkMarks(cfg: Config, l: Leg, step: TalkStep, cancelled: bool)
    requires Roles(l) && TalkEnabled(l, step, cancelled)
    ensures KeepsMarks(l, TalkApply(cfg, l, step, cancelled))
  {
    if l.runner.FirstChunk? {
      FirstChunkMarks(cfg, l, step, cancelled);
    } else if l.runner.Translating? {
      TranslatingMarks(cfg, l, step, cancelled);
    } else if step.DrainUtterance? {
      assert MarksOf(l.log) + [] == MarksOf(l.log);
    }
  }

  lemma TellMarks(l: Leg, step: TellStep, cancelled: bool)
    requires Roles(l) && TellEnabled(l, step, cancelled)
    ensures KeepsMarks(l, TellApply(l, step, cancelled))
  {
  }

  lemma DeadMarks(cfg: Config, l: Leg, step: DeadStep, closing: bool, cancelled: bool)
    requires Roles(l) && DeadEnabled(l, step, cancelled)
    ensures KeepsMarks(l, DeadApply(cfg, l, step, closing, cancelled))
  {
  }

  lemma EnvPlaced(cfg: Config, l: Leg, step: EnvStep)
    requires cfg.cap > 0 && Placed(cfg, l)
    ensures Placed(cfg, EnvApply(cfg, l, step))
  {
    if step.PushAudio? {
      PushPartitions(cfg.cap, l.pushed, l.ring, step.f);
    }
  }

  lemma StepPlaced(cfg: Config, l: Leg, step: Step, closing: bool, cancelled: bool)
    requires cfg.cap > 0 && Roles(l) && Placed(cfg, l) && Enabled(l, step, cancelled)
    ensures Placed(cfg, Apply(cfg, l, step, closing, cancelled))
  {
    match step
    case Env(env) => EnvPlaced(cfg, l, env);
    case Run(run) =>
      RunMarks(cfg, l, run, closing, cancelled);
      MarksKept(cfg, l, RunApply(cfg, l, run, closing, cancelled));
    case Talk(talk) =>
      TalkMarks(cfg, l, talk, cancelled);
      MarksKept(cfg, l, TalkApply(cfg, l, talk, cancelled));
    case Tell(tell) =>
      TellMarks(l, tell, cancelled);
      MarksKept(cfg, l, TellApply(l, tell, cancelled));
    case Dead(dead) =>
      DeadMarks(cfg, l, dead, closing, cancelled);
      MarksKept(cfg, l, DeadApply(cfg, l, dead, closing, cancelled));
  }
}
