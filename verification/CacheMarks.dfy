/** When a reported word is marked as wrong, and that a word so marked is never passed on. */
module CacheMarks {
  import opened CacheWords
  import opened CacheEntry

  // ---- The judgement

  predicate Full(cw: Cw) {
    cw[..8] != HalfNull && cw[8..] != HalfNull
  }

  /** The word follows a known previous word of the channel. */
  predicate Continues(l: Life, cw: Cw) {
    !IsNull(l.prevcw) && Follows(l.cwcycle, l.prevcw, cw)
  }

  /** The older entries are asked about the word. */
  predicate ByOlder(cfg: Config, ev: Event)
    requires ev.Report?
  {
    cfg.filter && ev.cycle == NoCycle
  }

  /** The cycle is known: the report names it, or the older entries do, or the word was in cycle before. */
  predicate Decided(cfg: Config, w: Word, ev: Event)
    requires ev.Report?
  {
    ByOlder(cfg, ev) ==> w.cycled || ev.past == InCycle
  }

  function Named(cfg: Config, ev: Event): Cycle
    requires ev.Report?
  {
    if ByOlder(cfg, ev) then ev.pastcycle else ev.cycle
  }

  /** The client expects another cycle. */
  predicate Clashes(cfg: Config, l: Life, ev: Event)
    requires ev.Report?
  {
    l.cwcycle != NoCycle && l.cwcycle != Named(cfg, ev)
  }

  /** A null half that the system does not have, or whose other half an older entry holds. */
  predicate BadHalf(cfg: Config, ev: Event)
    requires ev.Report?
  {
    !ev.nds || (cfg.filter && !ev.unseen)
  }

  /** A word with two halves that follows no known word is marked exactly when the older entries hold it or the cycle that
      is known is not the expected one; a word that follows never is; and one with a null half is when the half is bad. */
  lemma MarkedIff(cfg: Config, l: Life, w: Word, ev: Event)
    requires ev.Report? && !w.error
    ensures Full(ev.cw) && Continues(l, ev.cw) ==> !Judge(cfg, l, w, ev).0.error
    ensures Full(ev.cw) && !Continues(l, ev.cw) ==>
      (Judge(cfg, l, w, ev).0.error <==> (ByOlder(cfg, ev) && ev.past == Bad) || (Decided(cfg, w, ev) && Clashes(cfg, l, ev)))
    ensures !Full(ev.cw) ==> (Judge(cfg, l, w, ev).0.error <==> BadHalf(cfg, ev))
  {
    hide Follows, IsNull;
  }

  /** It may be passed on exactly when it follows, or its cycle is known and is the expected one, or its half is not bad. */
  lemma PassesIff(cfg: Config, l: Life, w: Word, ev: Event)
    requires ev.Report?
    ensures Full(ev.cw) ==> (Judge(cfg, l, w, ev).1 <==> Continues(l, ev.cw) || (Decided(cfg, w, ev) && !Clashes(cfg, l, ev)))
    ensures !Full(ev.cw) ==> (Judge(cfg, l, w, ev).1 <==> !BadHalf(cfg, ev))
  {
    hide Follows, IsNull;
  }

  /** The cycle it carries afterwards: the expected one when it follows, the one that was named, or the half that is not
      null. */
  lemma CarriesCycle(cfg: Config, l: Life, w: Word, ev: Event)
    requires ev.Report?
    ensures var v := Judge(cfg, l, w, ev).0;
      && (Full(ev.cw) && Continues(l, ev.cw) ==> v.cycled && v.cycle == l.cwcycle)
      && (Full(ev.cw) && !Continues(l, ev.cw) ==> v.cycled == Decided(cfg, w, ev) && v.cycle == Named(cfg, ev))
      && (!Full(ev.cw) && !BadHalf(cfg, ev) ==> v.cycled && v.cycle == if ev.cw[..8] == HalfNull then Cw1Cycle else Cw0Cycle)
  {
    hide Follows, IsNull;
  }

  // ---- What the entry knows of its client

  /** The previous word that the clients told last, or the null word. */
  function LastPrev(run: seq<Event>): Cw {
    if run == [] then Newborn().prevcw
    else
      var ev := run[|run| - 1];
      if ev.Find? && ev.hasPrev then ev.prev else LastPrev(run[..|run| - 1])
  }

  /** The cycle that the last client expected. */
  function LastCycle(run: seq<Event>): Cycle {
    if run == [] then NoCycle
    else
      var ev := run[|run| - 1];
      if ev.Find? then ev.cwcycle else LastCycle(run[..|run| - 1])
  }

  lemma ReportedKeeps(cfg: Config, l: Life, ev: Event)
    requires ev.Report?
    ensures var r := Reported(cfg, l, ev); r.prevcw == l.prevcw && r.cwcycle == l.cwcycle && r.sendpipe == l.sendpipe
  {
    hide Judge, Skipped, Index, Added;
  }

  lemma {:induction false} SweptKeeps(cfg: Config, l: Life, pass: Pass, n: nat)
    requires n <= |l.words|
    ensures var r := Swept(cfg, l, pass, n); r.prevcw == l.prevcw && r.cwcycle == l.cwcycle && r.sendpipe == l.sendpipe
  {
    hide Wanted;
    if n > 0 {
      SweptKeeps(cfg, l, pass, n - 1);
    }
  }

  lemma FoundKeeps(cfg: Config, l: Life, ev: Event)
    requires ev.Find?
    ensures var r := Found(cfg, l, ev);
      r.sendpipe && r.cwcycle == ev.cwcycle && r.prevcw == if ev.hasPrev then ev.prev else l.prevcw
  {
    hide Swept, IsNull;
    var m := Asked(l, ev);
    SweptKeeps(cfg, m, NoPrevious, |m.words|);
    SweptKeeps(cfg, m, SameCycle, |m.words|);
    var first := Swept(cfg, m, SameCycle, |m.words|);
    SweptKeeps(cfg, first, Uncycled, |first.words|);
  }

  /** After every run the words are judged against the previous word and the cycle that clients told last, and are passed
      on as soon as a client has asked. */
  lemma {:induction false} KnowsClient(cfg: Config, run: seq<Event>)
    ensures var l := Lived(cfg, run);
      && l.prevcw == LastPrev(run) && l.cwcycle == LastCycle(run)
      && (l.sendpipe <==> exists i :: 0 <= i < |run| && (run[i].Find? || run[i].Request?))
  {
    hide Reported, Found;
    if run != [] {
      var before, ev := run[..|run| - 1], run[|run| - 1];
      KnowsClient(cfg, before);
      match ev
      case Report(_, _, _, _, _, _, _, _) => ReportedKeeps(cfg, Lived(cfg, before), ev);
      case Find(_, _, _) => FoundKeeps(cfg, Lived(cfg, before), ev);
      case Request =>
      case Reply(_) =>
    }
  }

  /** A report leaves no trace exactly when a profile skips it and it repeats the previous word, not a null one. */
  lemma NoTraceIff(cfg: Config, l: Life, ev: Event)
    requires ev.Report?
    requires forall k :: 0 <= k < |l.words| ==> l.words[k].nbpeers < 65536
    ensures Reported(cfg, l, ev) == l <==> ev.skip && l.prevcw == ev.cw && !IsNull(l.prevcw)
  {
    hide Judge, IsNull, Added, Skipped, Index;
    if !Skipped(l, ev) {
      Counted(cfg, l, ev);
    }
    SkippedIs(l, ev);
  }

  lemma SkippedIs(l: Life, ev: Event)
    requires ev.Report?
    ensures Skipped(l, ev) <==> ev.skip && l.prevcw == ev.cw && !IsNull(l.prevcw)
  {
    hide IsNull;
  }

  lemma Counted(cfg: Config, l: Life, ev: Event)
    requires ev.Report? && !Skipped(l, ev)
    requires forall k :: 0 <= k < |l.words| ==> l.words[k].nbpeers < 65536
    ensures Reported(cfg, l, ev).words != l.words
  {
    hide Judge, IsNull, Skipped, Index;
    AddedIndex(l.words, ev.cw, ev.peerid);
    var m := l.(words := Added(l.words, ev.cw, ev.peerid));
    var k := Index(m.words, ev.cw);
    var w := m.words[k].(nbpeers := (m.words[k].nbpeers + 1) % 65536);
    JudgeFair(cfg, m, w, ev);
    if Index(l.words, ev.cw) < |l.words| {
      assert l.words[k].nbpeers != (l.words[k].nbpeers + 1) % 65536;
      assert Reported(cfg, l, ev).words[k].nbpeers == w.nbpeers;
    } else {
      assert |Reported(cfg, l, ev).words| == |l.words| + 1;
    }
  }

  // ---- A marked word stays out

  /** The entry holds the word, marked as wrong and not passed on. */
  ghost predicate Blocked(l: Life, cw: Cw) {
    exists k :: 0 <= k < |l.words| && l.words[k].cw == cw && l.words[k].error && !l.words[k].sent
  }

  lemma BlockedAt(l: Life, cw: Cw, k: nat)
    requires k < |l.words| && l.words[k].cw == cw && l.words[k].error && !l.words[k].sent
    ensures Blocked(l, cw)
  {
  }

  lemma BlockedNotLogged(l: Life, cw: Cw)
    requires Listed(l) && Blocked(l, cw)
    ensures cw !in l.log
  {
  }

  lemma AddedBlocked(l: Life, cw: Cw, other: Cw, peerid: int)
    requires Blocked(l, cw)
    ensures Blocked(l.(words := Added(l.words, other, peerid)), cw)
  {
    var k :| 0 <= k < |l.words| && l.words[k].cw == cw && l.words[k].error && !l.words[k].sent;
    var m := l.(words := Added(l.words, other, peerid));
    BlockedAt(m, cw, if Index(l.words, other) < |l.words| then k else k + 1);
  }

  lemma {:induction false} SweptBlocked(cfg: Config, l: Life, pass: Pass, n: nat, k: nat)
    requires n <= |l.words| && k < |l.words| && l.words[k].error
    ensures Swept(cfg, l, pass, n).words[k] == l.words[k]
  {
    hide Follows;
    if n > 0 {
      SweptBlocked(cfg, l, pass, n - 1, k);
    }
  }

  lemma FoundBlocked(cfg: Config, l: Life, ev: Event, cw: Cw)
    requires ev.Find? && Blocked(l, cw)
    ensures Blocked(Found(cfg, l, ev), cw)
  {
    hide Swept, IsNull;
    var k :| 0 <= k < |l.words| && l.words[k].cw == cw && l.words[k].error && !l.words[k].sent;
    var m := Asked(l, ev);
    SweptBlocked(cfg, m, NoPrevious, |m.words|, k);
    SweptBlocked(cfg, m, SameCycle, |m.words|, k);
    var first := Swept(cfg, m, SameCycle, |m.words|);
    SweptBlocked(cfg, first, Uncycled, |first.words|, k);
    BlockedAt(Found(cfg, l, ev), cw, k);
  }

  lemma ReportedBlocked(cfg: Config, l: Life, ev: Event, cw: Cw)
    requires ev.Report? && Listed(l) && Blocked(l, cw)
    ensures Blocked(Reported(cfg, l, ev), cw)
  {
    hide Listed, Blocked, Judge, IsNull, Added, Index;
    if !Skipped(l, ev) {
      AddedKeeps(l, ev.cw, ev.peerid);
      AddedBlocked(l, cw, ev.cw, ev.peerid);
      var m := l.(words := Added(l.words, ev.cw, ev.peerid));
      AddedIndex(l.words, ev.cw, ev.peerid);
      ListedDistinct(m);
      BumpedBlocked(cfg, m, ev, l.sendpipe, cw);
    }
  }

  /** The report of a word that the entry holds. */
  lemma BumpedBlocked(cfg: Config, m: Life, ev: Event, sendpipe: bool, cw: Cw)
    requires ev.Report? && Distinct(m.words) && Blocked(m, cw) && Index(m.words, ev.cw) < |m.words|
    ensures var k := Index(m.words, ev.cw); var w := m.words[k].(nbpeers := (m.words[k].nbpeers + 1) % 65536);
      && Blocked(m.(words := m.words[k := w]), cw)
      && (!w.error ==>
        var (v, pass) := Judge(cfg, m, w, ev); var after := m.(words := m.words[k := v]);
        Blocked(after, cw) && Blocked(Sent(after, k), cw))
  {
    hide Judge, Index;
    var j :| 0 <= j < |m.words| && m.words[j].cw == cw && m.words[j].error && !m.words[j].sent;
    var k := Index(m.words, ev.cw);
    var w := m.words[k].(nbpeers := (m.words[k].nbpeers + 1) % 65536);
    BlockedAt(m.(words := m.words[k := w]), cw, j);
    if !w.error {
      var v := Judge(cfg, m, w, ev).0;
      var after := m.(words := m.words[k := v]);
      BlockedAt(after, cw, j);
      BlockedAt(Sent(after, k), cw, j);
    }
  }

  lemma StepBlocked(cfg: Config, l: Life, ev: Event, cw: Cw)
    requires Listed(l) && Blocked(l, cw)
    ensures Blocked(Step(cfg, l, ev), cw)
  {
    hide Listed, Blocked, Reported, Found;
    match ev
    case Report(_, _, _, _, _, _, _, _) => ReportedBlocked(cfg, l, ev, cw);
    case Find(_, _, _) => FoundBlocked(cfg, l, ev, cw);
    case Request => StillBlocked(l, l.(sendpipe := true), cw);
    case Reply(other) => AddedBlocked(l, cw, other, 0);
  }

  lemma StillBlocked(l: Life, m: Life, cw: Cw)
    requires Blocked(l, cw) && m.words == l.words
    ensures Blocked(m, cw)
  {
  }

  /** Whatever happens later, a word that was marked as wrong before it was passed on is not passed on any more. */
  lemma {:induction false} MarkedStaysOut(cfg: Config, run: seq<Event>, later: seq<Event>, cw: Cw)
    requires Sane(cfg) && Blocked(Lived(cfg, run), cw)
    ensures Blocked(Lived(cfg, run + later), cw) && cw !in Lived(cfg, run + later).log
    decreases |later|
  {
    hide Step, Lived, Listed, Blocked, Kept, Fair;
    RunKeeps(cfg, run + later);
    KeptListed(cfg, Lived(cfg, run + later), Tally(cfg, run + later));
    if later == [] {
      assert run + later == run;
    } else {
      var n := |later| - 1;
      MarkedStaysOut(cfg, run, later[..n], cw);
      RunKeeps(cfg, run + later[..n]);
      KeptListed(cfg, Lived(cfg, run + later[..n]), Tally(cfg, run + later[..n]));
      StepBlocked(cfg, Lived(cfg, run + later[..n]), later[n], cw);
      LivedNext(cfg, run + later[..n], later[n]);
      assert run + later[..n] + [later[n]] == run + later;
    }
    BlockedNotLogged(Lived(cfg, run + later), cw);
  }

  lemma KeptListed(cfg: Config, l: Life, n: map<Cw, nat>)
    requires Kept(cfg, l, n)
    ensures Listed(l)
  {
  }

  // ---- A word that the older entries hold

  /** The report takes the word to the threshold for the first time, and the older entries, which are asked, hold it. */
  predicate FoundElsewhere(cfg: Config, run: seq<Event>, ev: Event) {
    && ev.Report? && Full(ev.cw) && ByOlder(cfg, ev) && ev.past == Bad
    && Reports(cfg, run, ev.cw) == cfg.threshold - 1
    && !Skipped(Lived(cfg, run), ev) && !Continues(Lived(cfg, run), ev.cw)
  }

  /** What the entry holds of a word before the report that takes it to the threshold. */
  lemma Unjudged(cfg: Config, l: Life, n: map<Cw, nat>, cw: Cw, peerid: int)
    requires Sane(cfg) && Kept(cfg, l, n) && Count(n, cw) == cfg.threshold - 1
    ensures var words := Added(l.words, cw, peerid); var k := Index(words, cw);
      k < |words| && words[k].nbpeers == cfg.threshold - 1 && !words[k].error && !words[k].cycled && !words[k].sent
  {
    hide Listed;
    AddedStays(cfg, l, n, cw, peerid);
    AddedIndex(l.words, cw, peerid);
  }

  lemma MarkedNow(cfg: Config, l: Life, n: map<Cw, nat>, ev: Event)
    requires Sane(cfg) && Kept(cfg, l, n) && ev.Report? && Count(n, ev.cw) == cfg.threshold - 1
    requires Full(ev.cw) && ByOlder(cfg, ev) && ev.past == Bad && !Skipped(l, ev) && !Continues(l, ev.cw)
    ensures Blocked(Reported(cfg, l, ev), ev.cw)
  {
    hide Kept, Judge, Index, Added, Blocked, Full, ByOlder, Continues;
    Unjudged(cfg, l, n, ev.cw, ev.peerid);
    var m := l.(words := Added(l.words, ev.cw, ev.peerid));
    var k := Index(m.words, ev.cw);
    var w := m.words[k].(nbpeers := (m.words[k].nbpeers + 1) % 65536);
    ThresholdNext(cfg);
    MarkedIff(cfg, m, w, ev);
    PassesIff(cfg, m, w, ev);
    JudgeFair(cfg, m, w, ev);
    SameContinues(l, m, ev.cw);
    NotDecided(cfg, w, ev);
    BlockedAt(Reported(cfg, l, ev), ev.cw, k);
  }

  lemma ThresholdNext(cfg: Config)
    requires Sane(cfg)
    ensures (cfg.threshold - 1 + 1) % 65536 == cfg.threshold
  {
  }

  lemma SameContinues(l: Life, m: Life, cw: Cw)
    requires m.prevcw == l.prevcw && m.cwcycle == l.cwcycle
    ensures Continues(m, cw) == Continues(l, cw)
  {
  }

  lemma NotDecided(cfg: Config, w: Word, ev: Event)
    requires ev.Report? && ByOlder(cfg, ev) && ev.past == Bad && !w.cycled
    ensures !Decided(cfg, w, ev)
  {
  }

  /** What a report answers: error and skip when it is not counted or does not come to the threshold, error for a word
      that was marked before, and otherwise what became of the word. */
  lemma AnswerTells(cfg: Config, l: Life, ev: Event)
    requires ev.Report? && Distinct(l.words)
    ensures Skipped(l, ev) ==> Answer(cfg, l, ev) == 9
    ensures !Skipped(l, ev) ==>
      var words := Added(l.words, ev.cw, ev.peerid); var k := Index(words, ev.cw); var r := Reported(cfg, l, ev);
      && k < |words| == |r.words| && r.words[k].cw == ev.cw
      && Answer(cfg, l, ev) ==
        (if words[k].error then 1 else if r.words[k].nbpeers != cfg.threshold then 9 else Status(r.words[k]))
  {
    hide Judge, Skipped, Status, Added;
    AddedIndex(l.words, ev.cw, ev.peerid);
    if !Skipped(l, ev) {
      var m := l.(words := Added(l.words, ev.cw, ev.peerid));
      var k := Index(m.words, ev.cw);
      var w := Bumped(m.words[k]);
      JudgeAlike(cfg, l, m, w, ev);
      JudgeFair(cfg, l, w, ev);
      SentStatus(cfg, l, m, w, ev, k);
    }
  }

  lemma SentStatus(cfg: Config, l: Life, m: Life, w: Word, ev: Event, k: nat)
    requires ev.Report? && k < |m.words|
    ensures var (v, pass) := Judge(cfg, m, w, ev); var after := m.(words := m.words[k := v]);
      v.(sent := v.sent || (pass && l.sendpipe)) == (if pass && l.sendpipe && !v.sent then Sent(after, k) else after).words[k]
  {
    hide Judge;
  }

  lemma AnswerNow(cfg: Config, l: Life, n: map<Cw, nat>, ev: Event)
    requires Sane(cfg) && Kept(cfg, l, n) && ev.Report? && Count(n, ev.cw) == cfg.threshold - 1
    requires Full(ev.cw) && ByOlder(cfg, ev) && ev.past == Bad && !Skipped(l, ev) && !Continues(l, ev.cw)
    ensures Answer(cfg, l, ev) == 1
  {
    hide Kept, Judge, Index, Added, Full, ByOlder, Continues, Decided;
    Unjudged(cfg, l, n, ev.cw, ev.peerid);
    var k := Index(Added(l.words, ev.cw, ev.peerid), ev.cw);
    var w := Bumped(Added(l.words, ev.cw, ev.peerid)[k]);
    ThresholdNext(cfg);
    MarkedIff(cfg, l, w, ev);
    PassesIff(cfg, l, w, ev);
    CarriesCycle(cfg, l, w, ev);
    JudgeFair(cfg, l, w, ev);
    NotDecided(cfg, w, ev);
  }

  /** Over every run: such a word is marked as wrong by that very report and is never passed on. */
  lemma FoundElsewhereStaysOut(cfg: Config, run: seq<Event>, ev: Event, later: seq<Event>)
    requires Sane(cfg) && FoundElsewhere(cfg, run, ev)
    ensures Blocked(Lived(cfg, run + [ev] + later), ev.cw) && ev.cw !in Lived(cfg, run + [ev] + later).log
    ensures Answer(cfg, Lived(cfg, run), ev) == 1
  {
    hide Answer, Step, Lived, Kept, Blocked, Continues, Skipped, Reports, Tally;
    RunKeeps(cfg, run);
    TallyIs(cfg, run, ev.cw);
    MarkedNow(cfg, Lived(cfg, run), Tally(cfg, run), ev);
    AnswerNow(cfg, Lived(cfg, run), Tally(cfg, run), ev);
    LivedNext(cfg, run, ev);
    StepOfReport(cfg, Lived(cfg, run), ev);
    MarkedStaysOut(cfg, run + [ev], later, ev.cw);
  }

  lemma StepOfReport(cfg: Config, l: Life, ev: Event)
    requires ev.Report?
    ensures Step(cfg, l, ev) == Reported(cfg, l, ev)
  {
  }
}
