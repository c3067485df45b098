/** How a batch comes to be dead-lettered. */
module Discipline {
  import opened Messages
  import opened Pipeline
  import opened Postgres
  import opened Wrappers

  ghost predicate Dying(s: State, w: nat) {
    w < |s.workers| && s.workers[w].Burying?
  }

  /** The two ways out of the retry loop that lead to the sink. */
  ghost predicate SendsToSink(cfg: Setup, s: State, l: Label, w: nat) {
    && w < |s.workers| && (s.workers[w].Copying? || s.workers[w].Requeueing?)
    && ((l.CopyFail? && l.w == w && s.workers[w].Copying? && s.workers[w].attempt >= cfg.maxRetries
         && (RowFault(l.err) || !cfg.hasWal))
        || (l.RequeueFail? && l.w == w))
  }

  lemma NotDyingAtStart(cfg: Setup, s: State, w: nat)
    requires Init(cfg, s)
    ensures !Dying(s, w)
  {}

  lemma DyingStarts(cfg: Setup, s: State, l: Label, w: nat)
    requires Enabled(cfg, s, l) && !Dying(s, w) && Dying(Next(cfg, s, l), w)
    ensures SendsToSink(cfg, s, l, w)
    ensures Next(cfg, s, l).workers[w].batch == s.workers[w].batch
  {}

  lemma DyingContinues(cfg: Setup, s: State, l: Label, w: nat)
    requires Enabled(cfg, s, l) && Dying(s, w) && Dying(Next(cfg, s, l), w)
    ensures !l.Crash? && (l.Actor() == Some(w) ==> l.BuryOk? || l.BuryFail?)
    ensures Next(cfg, s, l).workers[w].batch == s.workers[w].batch
  {}

  /** Step `j` sent this very batch of worker `w` to the sink, and since then the worker has done nothing
      but write it. */
  ghost predicate SentBy(cfg: Setup, s0: State, ls: seq<Label>, w: nat, batch: seq<Message>, j: nat) {
    && j < |ls|
    && Legal(cfg, s0, ls[..j])
    && SendsToSink(cfg, Exec(cfg, s0, ls[..j]), ls[j], w)
    && Exec(cfg, s0, ls[..j]).workers[w].batch == batch
    && forall i :: j < i < |ls| ==> !ls[i].Crash? && (ls[i].Actor() == Some(w) ==> ls[i].BuryOk? || ls[i].BuryFail?)
  }

  /** In every run, a worker is dead-lettering only because its last database error, with the retries
      spent, was of SQLSTATE class 22 or 23 or there is no WAL, or because a WAL append failed
      for this very batch. */
  lemma {:induction false} DeadLetterHasCause(cfg: Setup, s0: State, ls: seq<Label>, w: nat) returns (j: nat)
    requires Init(cfg, s0) && Legal(cfg, s0, ls) && Dying(Exec(cfg, s0, ls), w)
    ensures SentBy(cfg, s0, ls, w, Exec(cfg, s0, ls).workers[w].batch, j)
  {
    NotDyingAtStart(cfg, s0, w);
    var init := ls[..|ls| - 1];
    var s, l := Exec(cfg, s0, init), ls[|ls| - 1];
    if Dying(s, w) {
      j := DeadLetterHasCause(cfg, s0, init, w);
      DyingContinues(cfg, s, l, w);
      SentLonger(cfg, s0, ls, w, s.workers[w].batch, j);
    } else {
      DyingStarts(cfg, s, l, w);
      j := |ls| - 1;
    }
  }

  lemma SentLonger(cfg: Setup, s0: State, ls: seq<Label>, w: nat, batch: seq<Message>, j: nat)
    requires ls != [] && SentBy(cfg, s0, ls[..|ls| - 1], w, batch, j)
    requires var l := ls[|ls| - 1]; !l.Crash? && (l.Actor() == Some(w) ==> l.BuryOk? || l.BuryFail?)
    ensures SentBy(cfg, s0, ls, w, batch, j)
  {
    var init := ls[..|ls| - 1];
    assert init[..j] == ls[..j] && init[j] == ls[j];
    forall i | j < i < |ls|
      ensures !ls[i].Crash? && (ls[i].Actor() == Some(w) ==> ls[i].BuryOk? || ls[i].BuryFail?)
    {
      if i < |init| { assert init[i] == ls[i]; }
    }
  }
}
