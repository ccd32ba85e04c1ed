/** How an entry of the shared cache collects reported words, accepts one at a threshold and passes it on. */
module CacheWords {
  import opened Bits

  type Cw = s: seq<byte> | |s| == 16 witness [0, 0, 0, 0, 0, 0, 0, 0, 0, 0, 0, 0, 0, 0, 0, 0]

  /** A peer that forwards sends its cycle as a byte, which nobody checks: it may be none of the three. */
  datatype Cycle = NoCycle | Cw0Cycle | Cw1Cycle | OtherCycle(code: byte)

  // ---- Words

  predicate IsNull(cw: Cw) {
    && (cw[0] == cw[1] == cw[2] == 0 || cw[4] == cw[5] == cw[6] == 0)
    && (cw[8] == cw[9] == cw[10] == 0 || cw[12] == cw[13] == cw[14] == 0)
  }

  function Agreements(a: seq<byte>, b: seq<byte>): (n: nat)
    requires |a| == |b|
    ensures n <= |a|
  {
    if a == [] then 0 else (if a[|a| - 1] == b[|b| - 1] then 1 else 0) + Agreements(a[..|a| - 1], b[..|b| - 1])
  }

  predicate Similar(a: seq<byte>, b: seq<byte>)
    requires |a| == |b|
  {
    Agreements(a, b) > 3
  }

  method SimilarCw(cw1: seq<byte>, cw2: seq<byte>) returns (r: bool)
    requires |cw1| == |cw2| == 8
    ensures r == Similar(cw1, cw2)
  {
    var count := 0;
    for i := 0 to 8
      invariant count == Agreements(cw1[..i], cw2[..i])
    {
      assert cw1[..i + 1][..i] == cw1[..i] && cw2[..i + 1][..i] == cw2[..i];
      if cw1[i] == cw2[i] {
        count := count + 1;
      }
    }
    assert cw1[..8] == cw1 && cw2[..8] == cw2;
    return count > 3;
  }

  /** `cw` follows `prev` when the half that the cycle keeps is the same and the other half is a new one. */
  predicate Follows(cycle: Cycle, prev: Cw, cw: Cw) {
    || (cycle == Cw1Cycle && prev[..8] == cw[..8] && !Similar(prev[8..], cw[8..]))
    || (cycle == Cw0Cycle && !Similar(prev[..8], cw[..8]) && prev[8..] == cw[8..])
  }

  const HalfNull: seq<byte> := [0, 0, 0, 0, 0, 0, 0, 0]

  // ---- The life of an entry

  datatype Config = Config(threshold: nat, filter: bool)

  /** What the scan of the older entries of the channel says of a word. */
  datatype Past = Bad | InCycle | Nothing

  datatype Word = Word(cw: Cw, error: bool, cycled: bool, sent: bool, cycle: Cycle, peerid: int, nbpeers: nat)

  datatype Life = Life(words: seq<Word>, sendpipe: bool, cwcycle: Cycle, prevcw: Cw, log: seq<Cw>)

  datatype Event =
    /** A peer reports a word. `skip`: some profile ignores a word equal to the previous one; `nds`: the system of the
        entry has halves that may be null; `past`, `pastcycle`: what the older entries say, and the cycle they leave
        behind; `unseen`: no older entry has the half of the word that is not null. */
    | Report(cw: Cw, cycle: Cycle, peerid: int, skip: bool, nds: bool, past: Past, pastcycle: Cycle, unseen: bool)
    /** A client waits for the word of this entry. */
    | Find(cwcycle: Cycle, prev: Cw, hasPrev: bool)
    /** The same, and peers are asked too. */
    | Request
    /** The word was found elsewhere. */
    | Reply(cw: Cw)

  function Index(words: seq<Word>, cw: Cw): (k: nat)
    ensures k <= |words|
    ensures k < |words| ==> words[k].cw == cw
    ensures forall j :: 0 <= j < k ==> words[j].cw != cw
  {
    if words == [] || words[0].cw == cw then 0 else 1 + Index(words[1..], cw)
  }

  function NewWord(cw: Cw, peerid: int): Word {
    Word(cw, false, false, false, NoCycle, peerid, 0)
  }

  function Added(words: seq<Word>, cw: Cw, peerid: int): seq<Word> {
    if Index(words, cw) < |words| then words else [NewWord(cw, peerid)] + words
  }

  lemma AddedIndex(words: seq<Word>, cw: Cw, peerid: int)
    ensures var k := Index(words, cw); var a := Added(words, cw, peerid);
      if k < |words| then a == words && Index(a, cw) == k else a == [NewWord(cw, peerid)] + words && Index(a, cw) == 0
  {
  }

  predicate Skipped(l: Life, ev: Event)
    requires ev.Report?
  {
    ev.skip && !IsNull(l.prevcw) && l.prevcw == ev.cw
  }

  /** The word after the report that takes it to the threshold, and whether it may be passed on. */
  function Judge(cfg: Config, l: Life, w: Word, ev: Event): (r: (Word, bool))
    requires ev.Report?
  {
    if ev.cw[..8] != HalfNull && ev.cw[8..] != HalfNull then
      if !IsNull(l.prevcw) && Follows(l.cwcycle, l.prevcw, ev.cw) then
        (w.(cycled := true, cycle := l.cwcycle, peerid := ev.peerid), true)
      else if cfg.filter && ev.cycle == NoCycle then
        var v := w.(error := w.error || ev.past == Bad, cycled := w.cycled || ev.past == InCycle, cycle := ev.pastcycle, peerid := ev.peerid);
        if !v.cycled then (v, false) else Checked(l, v, ev.pastcycle)
      else
        Checked(l, w.(cycled := true, cycle := ev.cycle, peerid := ev.peerid), ev.cycle)
    else if !ev.nds || (cfg.filter && !ev.unseen) then
      (w.(error := true), false)
    else
      (w.(cycled := true, cycle := if ev.cw[..8] == HalfNull then Cw1Cycle else Cw0Cycle, peerid := ev.peerid), true)
  }

  function Checked(l: Life, w: Word, cycle: Cycle): (Word, bool) {
    if l.cwcycle != NoCycle && l.cwcycle != cycle then (w.(error := true), false) else (w, true)
  }

  function Sent(l: Life, k: nat): Life
    requires k < |l.words|
  {
    l.(words := l.words[k := l.words[k].(sent := true)], log := l.log + [l.words[k].cw])
  }

  function Reported(cfg: Config, l: Life, ev: Event): Life
    requires ev.Report?
  {
    if Skipped(l, ev) then l
    else
      var m := l.(words := Added(l.words, ev.cw, ev.peerid));
      var k := Index(m.words, ev.cw);
      var w := m.words[k].(nbpeers := (m.words[k].nbpeers + 1) % 65536);
      if w.error || w.nbpeers != cfg.threshold then m.(words := m.words[k := w])
      else
        var (v, pass) := Judge(cfg, m, w, ev);
        var after := m.(words := m.words[k := v]);
        if pass && l.sendpipe && !v.sent then Sent(after, k) else after
  }

  // ---- A client asks

  datatype Pass = SameCycle | Uncycled | NoPrevious

  predicate Wanted(cfg: Config, l: Life, w: Word, pass: Pass) {
    !w.error && !w.sent && w.nbpeers >= cfg.threshold &&
    match pass
    case SameCycle => w.cycled && l.cwcycle == w.cycle && Follows(l.cwcycle, l.prevcw, w.cw)
    case Uncycled => !w.cycled && Follows(l.cwcycle, l.prevcw, w.cw)
    case NoPrevious => w.cycled && (l.cwcycle == NoCycle || l.cwcycle == w.cycle)
  }

  /** Passes on the words wanted among the first `n`. */
  function Swept(cfg: Config, l: Life, pass: Pass, n: nat): (r: Life)
    requires n <= |l.words|
    ensures |r.words| == |l.words| && forall k :: n <= k < |l.words| ==> r.words[k] == l.words[k]
  {
    if n == 0 then l
    else
      var m := Swept(cfg, l, pass, n - 1);
      if Wanted(cfg, m, m.words[n - 1], pass) then Sent(m, n - 1) else m
  }

  function Asked(l: Life, ev: Event): Life
    requires ev.Find?
  {
    l.(sendpipe := true, cwcycle := ev.cwcycle, prevcw := if ev.hasPrev then ev.prev else l.prevcw)
  }

  function Found(cfg: Config, l: Life, ev: Event): Life
    requires ev.Find?
  {
    var m := Asked(l, ev);
    if !IsNull(m.prevcw) then
      var first := Swept(cfg, m, SameCycle, |m.words|);
      Swept(cfg, first, Uncycled, |first.words|)
    else
      Swept(cfg, m, NoPrevious, |m.words|)
  }

  function Step(cfg: Config, l: Life, ev: Event): Life {
    match ev
    case Report(_, _, _, _, _, _, _, _) => Reported(cfg, l, ev)
    case Find(_, _, _) => Found(cfg, l, ev)
    case Request => l.(sendpipe := true)
    case Reply(cw) => l.(words := Added(l.words, cw, 0))
  }

  function Newborn(): Life {
    Life([], false, NoCycle, [0, 0, 0, 0, 0, 0, 0, 0, 0, 0, 0, 0, 0, 0, 0, 0], [])
  }

  /** The life of an entry from its birth through `run`. */
  function Lived(cfg: Config, run: seq<Event>): Life {
    if run == [] then Newborn() else Step(cfg, Lived(cfg, run[..|run| - 1]), run[|run| - 1])
  }

  /** How often `cw` was reported. */
  function Reports(cfg: Config, run: seq<Event>, cw: Cw): nat {
    if run == [] then 0
    else
      var ev, before := run[|run| - 1], run[..|run| - 1];
      Reports(cfg, before, cw) + if ev.Report? && ev.cw == cw && !Skipped(Lived(cfg, before), ev) then 1 else 0
  }

  // ---- What every run keeps

  predicate Distinct(words: seq<Word>) {
    forall i, j :: 0 <= i < j < |words| ==> words[i].cw != words[j].cw
  }

  predicate Once(log: seq<Cw>) {
    forall i, j :: 0 <= i < j < |log| ==> log[i] != log[j]
  }

  /** The words of an entry are pairwise distinct, and those passed on are those marked so, each once. */
  ghost predicate Listed(l: Life) {
    && Distinct(l.words) && Once(l.log)
    && (forall k :: 0 <= k < |l.words| && l.words[k].sent ==> l.words[k].cw in l.log)
    && (forall c :: c in l.log ==> exists k :: 0 <= k < |l.words| && l.words[k].cw == c && l.words[k].sent)
  }

  /** What `n` reports may have made of a word: the counter has 16 bits. */
  predicate Fair(cfg: Config, w: Word, n: nat) {
    && w.nbpeers == n % 65536
    && (n < cfg.threshold ==> !w.error && !w.cycled && !w.sent)
    && (n < 65536 + cfg.threshold ==> !(w.sent && w.error))
  }

  predicate Sane(cfg: Config) {
    1 <= cfg.threshold <= 30
  }

  lemma SentKeeps(l: Life, k: nat)
    requires Listed(l) && k < |l.words| && !l.words[k].sent
    ensures Listed(Sent(l, k))
  {
    var r := Sent(l, k);
    var c := l.words[k].cw;
    assert c !in l.log;
    forall d | d in r.log
      ensures exists i :: 0 <= i < |r.words| && r.words[i].cw == d && r.words[i].sent
    {
      if d == c {
        assert r.words[k].cw == d && r.words[k].sent;
      } else {
        var i :| 0 <= i < |l.words| && l.words[i].cw == d && l.words[i].sent;
        assert r.words[i] == l.words[i];
      }
    }
  }

  /** A word changes everything but its name and its mark. */
  lemma ChangedKeeps(l: Life, k: nat, w: Word)
    requires Listed(l) && k < |l.words| && w.cw == l.words[k].cw && w.sent == l.words[k].sent
    ensures Listed(l.(words := l.words[k := w]))
  {
    var r := l.words[k := w];
    forall d | d in l.log
      ensures exists i :: 0 <= i < |r| && r[i].cw == d && r[i].sent
    {
      var i :| 0 <= i < |l.words| && l.words[i].cw == d && l.words[i].sent;
      assert r[i].cw == d && r[i].sent;
    }
  }

  lemma AddedKeeps(l: Life, cw: Cw, peerid: int)
    requires Listed(l)
    ensures Listed(l.(words := Added(l.words, cw, peerid)))
  {
    var r := Added(l.words, cw, peerid);
    if Index(l.words, cw) == |l.words| {
      assert forall i :: 0 <= i < |l.words| ==> r[i + 1] == l.words[i];
      forall d | d in l.log
        ensures exists i :: 0 <= i < |r| && r[i].cw == d && r[i].sent
      {
        var i :| 0 <= i < |l.words| && l.words[i].cw == d && l.words[i].sent;
        assert r[i + 1].cw == d && r[i + 1].sent;
      }
    }
  }

  /** What a run keeps, for any count `n` of the reports. */
  ghost predicate Kept(cfg: Config, l: Life, n: map<Cw, nat>) {
    && Listed(l)
    && (forall k :: 0 <= k < |l.words| ==> l.words[k].cw in n && Fair(cfg, l.words[k], n[l.words[k].cw]))
    && (forall c :: c in n ==> Index(l.words, c) < |l.words|)
  }

  lemma SentStays(cfg: Config, l: Life, n: map<Cw, nat>, k: nat)
    requires Kept(cfg, l, n) && Sane(cfg)
    requires k < |l.words| && !l.words[k].sent && l.words[k].nbpeers >= cfg.threshold
    requires l.words[k].error ==> n[l.words[k].cw] >= 65536 + cfg.threshold
    ensures Kept(cfg, Sent(l, k), n)
  {
    hide Listed;
    SentKeeps(l, k);
    var r := Sent(l, k);
    forall c | c in n
      ensures Index(r.words, c) < |r.words|
    {
      var i := Index(l.words, c);
      assert r.words[i].cw == c;
    }
  }

  lemma {:induction false} SweptStays(cfg: Config, l: Life, n: map<Cw, nat>, pass: Pass, m: nat)
    requires Kept(cfg, l, n) && Sane(cfg) && m <= |l.words|
    ensures Kept(cfg, Swept(cfg, l, pass, m), n)
  {
    hide Kept, Fair, Follows;
    if m > 0 {
      SweptStays(cfg, l, n, pass, m - 1);
      var before := Swept(cfg, l, pass, m - 1);
      if Wanted(cfg, before, before.words[m - 1], pass) {
        SentStays(cfg, before, n, m - 1);
      }
    }
  }

  function Count(n: map<Cw, nat>, cw: Cw): nat {
    if cw in n then n[cw] else 0
  }

  lemma NewFair(cfg: Config, cw: Cw, peerid: int)
    ensures Fair(cfg, NewWord(cw, peerid), 0) && NewWord(cw, peerid).cw == cw
  {
  }

  lemma AddedStays(cfg: Config, l: Life, n: map<Cw, nat>, cw: Cw, peerid: int)
    requires Kept(cfg, l, n) && Sane(cfg)
    ensures Kept(cfg, l.(words := Added(l.words, cw, peerid)), n[cw := Count(n, cw)])
  {
    hide Listed, Fair, NewWord;
    AddedKeeps(l, cw, peerid);
    NewFair(cfg, cw, peerid);
    if Index(l.words, cw) == |l.words| {
      IndexBehind(NewWord(cw, peerid), l.words);
      assert forall i :: 0 <= i < |l.words| ==> l.words[i].cw != cw;
    }
  }

  lemma IndexBehind(w: Word, words: seq<Word>)
    ensures forall c :: Index([w] + words, c) == if c == w.cw then 0 else 1 + Index(words, c)
  {
  }

  lemma ListedDistinct(l: Life)
    requires Listed(l)
    ensures Distinct(l.words)
  {
  }

  /** One word is reported once more. */
  lemma ChangedStays(cfg: Config, l: Life, n: map<Cw, nat>, k: nat, w: Word)
    requires Kept(cfg, l, n) && k < |l.words| && w.cw == l.words[k].cw && w.sent == l.words[k].sent
    requires Fair(cfg, w, n[w.cw] + 1)
    ensures Kept(cfg, l.(words := l.words[k := w]), n[w.cw := n[w.cw] + 1])
  {
    hide Fair, Listed;
    ListedDistinct(l);
    ChangedKeeps(l, k, w);
    var r := l.words[k := w];
    forall c | c in n
      ensures Index(r, c) < |r|
    {
      var i := Index(l.words, c);
      assert r[i].cw == c;
    }
  }

  /** A judgement never marks a word as passed on, and lets no word pass that it marks as wrong, unless the word was
      judged before. */
  lemma JudgeFair(cfg: Config, l: Life, w: Word, ev: Event)
    requires ev.Report?
    ensures var (v, pass) := Judge(cfg, l, w, ev);
      && v.cw == w.cw && v.sent == w.sent && v.nbpeers == w.nbpeers
      && (pass && !w.error && !w.cycled ==> !v.error)
  {
  }

  lemma FairNext(cfg: Config, w: Word, n: nat)
    requires Fair(cfg, w, n) && Sane(cfg)
    ensures var v := w.(nbpeers := (w.nbpeers + 1) % 65536);
      if w.error || v.nbpeers != cfg.threshold then Fair(cfg, v, n + 1)
      else if n + 1 < 65536 + cfg.threshold then n + 1 == cfg.threshold && !w.cycled && !w.sent
      else true
  {
  }

  /** A report that takes a word to the threshold meets it unjudged, or after the counter went round. */
  lemma JudgedStays(cfg: Config, l: Life, n: map<Cw, nat>, k: nat, w: Word, ev: Event)
    requires Kept(cfg, l, n) && Sane(cfg) && ev.Report? && k < |l.words|
    requires w == l.words[k].(nbpeers := cfg.threshold) && !w.error && (n[w.cw] + 1) % 65536 == cfg.threshold
    ensures var (v, pass) := Judge(cfg, l, w, ev); var after := l.(words := l.words[k := v]);
      && Kept(cfg, after, n[w.cw := n[w.cw] + 1])
      && (pass && !v.sent ==> Kept(cfg, Sent(after, k), n[w.cw := n[w.cw] + 1]))
  {
    hide Judge, Listed;
    FairNext(cfg, l.words[k], n[w.cw]);
    JudgeFair(cfg, l, w, ev);
    var (v, pass) := Judge(cfg, l, w, ev);
    var after, n' := l.(words := l.words[k := v]), n[w.cw := n[w.cw] + 1];
    ChangedStays(cfg, l, n, k, v);
    if pass && !v.sent {
      SentStays(cfg, after, n', k);
    }
  }

  lemma ReportStays(cfg: Config, l: Life, n: map<Cw, nat>, ev: Event)
    requires Kept(cfg, l, n) && Sane(cfg) && ev.Report? && !Skipped(l, ev)
    ensures Kept(cfg, Reported(cfg, l, ev), n[ev.cw := Count(n, ev.cw) + 1])
  {
    hide Kept, Judge, Fair;
    AddedStays(cfg, l, n, ev.cw, ev.peerid);
    var m := l.(words := Added(l.words, ev.cw, ev.peerid));
    var n' := n[ev.cw := Count(n, ev.cw)];
    var k := Index(m.words, ev.cw);
    KeptFair(cfg, m, n', k);
    FairNext(cfg, m.words[k], n'[ev.cw]);
    var w := m.words[k].(nbpeers := (m.words[k].nbpeers + 1) % 65536);
    assert n'[ev.cw := n'[ev.cw] + 1] == n[ev.cw := Count(n, ev.cw) + 1];
    if w.error || w.nbpeers != cfg.threshold {
      ChangedStays(cfg, m, n', k, w);
    } else {
      JudgedStays(cfg, m, n', k, w, ev);
    }
  }

  lemma KeptFair(cfg: Config, l: Life, n: map<Cw, nat>, k: nat)
    requires Kept(cfg, l, n)
    requires k <= |l.words|
    ensures k < |l.words| ==> l.words[k].cw in n && Fair(cfg, l.words[k], n[l.words[k].cw])
    ensures k < |l.words| ==> l.words[k].nbpeers == n[l.words[k].cw] % 65536
  {
  }

  /** The words of an entry and how often each was reported. */
  function Tally(cfg: Config, run: seq<Event>): map<Cw, nat> {
    if run == [] then map[] else
      var before := run[..|run| - 1];
      Next(cfg, Lived(cfg, before), Tally(cfg, before), run[|run| - 1])
  }

  lemma {:induction false} TallyIs(cfg: Config, run: seq<Event>, cw: Cw)
    ensures Count(Tally(cfg, run), cw) == Reports(cfg, run, cw)
  {
    if run != [] {
      TallyIs(cfg, run[..|run| - 1], cw);
    }
  }

  lemma {:induction false} RunKeeps(cfg: Config, run: seq<Event>)
    requires Sane(cfg)
    ensures Kept(cfg, Lived(cfg, run), Tally(cfg, run))
  {
    hide Kept, Step, Judge;
    if run == [] {
      BornKept(cfg);
    } else {
      var before, ev := run[..|run| - 1], run[|run| - 1];
      RunKeeps(cfg, before);
      StepKeeps(cfg, Lived(cfg, before), Tally(cfg, before), ev);
    }
  }

  lemma BornKept(cfg: Config)
    ensures Kept(cfg, Newborn(), map[])
  {
  }

  function Next(cfg: Config, l: Life, n: map<Cw, nat>, ev: Event): map<Cw, nat> {
    match ev
    case Report(cw, _, _, _, _, _, _, _) => if Skipped(l, ev) then n else n[cw := Count(n, cw) + 1]
    case Find(_, _, _) => n
    case Request => n
    case Reply(cw) => n[cw := Count(n, cw)]
  }

  lemma StepKeeps(cfg: Config, l: Life, n: map<Cw, nat>, ev: Event)
    requires Kept(cfg, l, n) && Sane(cfg)
    ensures Kept(cfg, Step(cfg, l, ev), Next(cfg, l, n, ev))
  {
    hide Reported, Fair, Judge, Swept, Added, IsNull, Index;
    match ev
    case Report(_, _, _, _, _, _, _, _) =>
      if !Skipped(l, ev) {
        ReportStays(cfg, l, n, ev);
      } else {
        SkippedStays(cfg, l, ev);
      }
    case Find(_, _, _) =>
      var m := Asked(l, ev);
      assert Kept(cfg, m, n);
      SweptStays(cfg, m, n, NoPrevious, |m.words|);
      SweptStays(cfg, m, n, SameCycle, |m.words|);
      var first := Swept(cfg, m, SameCycle, |m.words|);
      SweptStays(cfg, first, n, Uncycled, |first.words|);
    case Request =>
    case Reply(cw) => AddedStays(cfg, l, n, cw, 0);
  }

  lemma SkippedStays(cfg: Config, l: Life, ev: Event)
    requires ev.Report? && Skipped(l, ev)
    ensures Reported(cfg, l, ev) == l
  {
  }

  // ---- The promises

  /** An entry never holds a word twice. */
  lemma WordsDistinct(cfg: Config, run: seq<Event>, i: nat, j: nat)
    requires Sane(cfg) && i < j < |Lived(cfg, run).words|
    ensures Lived(cfg, run).words[i].cw != Lived(cfg, run).words[j].cw
  {
    RunKeeps(cfg, run);
  }

  /** However long the entry lives, a word is passed on at most once, and only after as many reports as the threshold
      asks for; the log names exactly the words marked as passed on. */
  lemma PassedOnOnce(cfg: Config, run: seq<Event>, cw: Cw)
    requires Sane(cfg)
    ensures var l := Lived(cfg, run);
      && Once(l.log)
      && (cw in l.log <==> exists k :: 0 <= k < |l.words| && l.words[k].cw == cw && l.words[k].sent)
      && (cw in l.log ==> Reports(cfg, run, cw) >= cfg.threshold)
  {
    hide Step, Reports, Lived, Tally, Index;
    RunKeeps(cfg, run);
    TallyIs(cfg, run, cw);
  }

  /** A word that is both passed on and marked as wrong was reported more often than its counter can count. */
  lemma NeverBoth(cfg: Config, run: seq<Event>, k: nat)
    requires Sane(cfg) && k < |Lived(cfg, run).words|
    ensures var w := Lived(cfg, run).words[k];
      w.sent && w.error ==> Reports(cfg, run, w.cw) >= 65536 + cfg.threshold
  {
    hide Step, Reports, Lived, Tally, Listed, Index;
    RunKeeps(cfg, run);
    TallyIs(cfg, run, Lived(cfg, run).words[k].cw);
  }

  // ---- What kind of word is passed on

  /** A word has been reported often enough, and it follows the previous word of the channel, or it carries the cycle
      that the entry expects, or one of its halves is null. */
  predicate Fits(cfg: Config, l: Life, w: Word) {
    && w.nbpeers >= cfg.threshold
    && (|| Follows(l.cwcycle, l.prevcw, w.cw)
        || (w.cycled && (l.cwcycle == NoCycle || w.cycle == l.cwcycle))
        || w.cw[..8] == HalfNull || w.cw[8..] == HalfNull)
  }

  lemma JudgeFits(cfg: Config, l: Life, w: Word, ev: Event)
    requires ev.Report? && w.cw == ev.cw && w.nbpeers >= cfg.threshold
    ensures var (v, pass) := Judge(cfg, l, w, ev); pass ==> Fits(cfg, l, v)
  {
    hide Follows, IsNull;
  }

  lemma ReportFits(cfg: Config, l: Life, ev: Event, k: nat)
    requires Listed(l) && ev.Report? && k < |Reported(cfg, l, ev).words|
    requires var w := Reported(cfg, l, ev).words[k]; w.sent && w.cw !in l.log
    ensures Fits(cfg, Reported(cfg, l, ev), Reported(cfg, l, ev).words[k])
  {
    hide Judge, Fits, Follows, IsNull, Index, Distinct, Once;
    AddedKeeps(l, ev.cw, ev.peerid);
    AddedIndex(l.words, ev.cw, ev.peerid);
    var m := l.(words := Added(l.words, ev.cw, ev.peerid));
    var i := Index(m.words, ev.cw);
    var w := m.words[i].(nbpeers := (m.words[i].nbpeers + 1) % 65536);
    JudgeFair(cfg, m, w, ev);
    if w.nbpeers == cfg.threshold {
      JudgeFits(cfg, m, w, ev);
      var (v, pass) := Judge(cfg, m, w, ev);
      FitsAlike(cfg, m, v, Reported(cfg, l, ev), v.(sent := true));
    }
  }

  lemma FitsAlike(cfg: Config, l: Life, w: Word, m: Life, v: Word)
    requires l.cwcycle == m.cwcycle && l.prevcw == m.prevcw && v.(sent := w.sent) == w
    ensures Fits(cfg, l, w) == Fits(cfg, m, v)
  {
  }

  lemma {:induction false} SweptFits(cfg: Config, l: Life, pass: Pass, n: nat, k: nat)
    requires k < |l.words| && n <= |l.words|
    ensures var r := Swept(cfg, l, pass, n);
      && r.cwcycle == l.cwcycle && r.prevcw == l.prevcw && r.words[k].(sent := l.words[k].sent) == l.words[k]
      && (r.words[k].sent <==> l.words[k].sent || (k < n && Wanted(cfg, l, l.words[k], pass)))
  {
    hide Follows;
    if n > 0 {
      SweptFits(cfg, l, pass, n - 1, k);
    }
  }

  lemma FoundNames(cfg: Config, l: Life, ev: Event, k: nat)
    requires ev.Find? && k < |Found(cfg, l, ev).words|
    ensures |Found(cfg, l, ev).words| == |l.words| && Found(cfg, l, ev).words[k].cw == l.words[k].cw
  {
    hide Swept, IsNull;
    var m := Asked(l, ev);
    SweptFits(cfg, m, NoPrevious, |m.words|, k);
    SweptFits(cfg, m, SameCycle, |m.words|, k);
    var first := Swept(cfg, m, SameCycle, |m.words|);
    SweptFits(cfg, first, Uncycled, |first.words|, k);
  }

  /** What a waiting client gets: with a known previous word every word that follows it, unless it carries another cycle;
      without one every word whose cycle the entry allows. */
  predicate Served(cfg: Config, l: Life, w: Word) {
    !w.error && w.nbpeers >= cfg.threshold &&
    if IsNull(l.prevcw) then w.cycled && (l.cwcycle == NoCycle || l.cwcycle == w.cycle)
    else Follows(l.cwcycle, l.prevcw, w.cw) && (w.cycled ==> l.cwcycle == w.cycle)
  }

  lemma FoundServes(cfg: Config, l: Life, ev: Event, k: nat)
    requires ev.Find? && k < |l.words| == |Found(cfg, l, ev).words|
    ensures Found(cfg, l, ev).words[k].sent <==> l.words[k].sent || Served(cfg, Asked(l, ev), l.words[k])
  {
    hide Swept, IsNull, Follows;
    var m := Asked(l, ev);
    SweptFits(cfg, m, NoPrevious, |m.words|, k);
    SweptFits(cfg, m, SameCycle, |m.words|, k);
    var first := Swept(cfg, m, SameCycle, |m.words|);
    SweptFits(cfg, first, Uncycled, |first.words|, k);
  }

  lemma FoundFits(cfg: Config, l: Life, ev: Event, k: nat)
    requires ev.Find? && k < |Found(cfg, l, ev).words| == |l.words| && Found(cfg, l, ev).words[k].sent && !l.words[k].sent
    ensures Fits(cfg, Found(cfg, l, ev), Found(cfg, l, ev).words[k])
  {
    hide Swept, IsNull, Follows;
    var m := Asked(l, ev);
    SweptFits(cfg, m, NoPrevious, |m.words|, k);
    SweptFits(cfg, m, SameCycle, |m.words|, k);
    var first := Swept(cfg, m, SameCycle, |m.words|);
    SweptFits(cfg, first, Uncycled, |first.words|, k);
  }

  /** In every run, a word that an event passes on fits the entry as the event leaves it. */
  lemma PassedOnFits(cfg: Config, run: seq<Event>, ev: Event, k: nat)
    requires Sane(cfg) && k < |Lived(cfg, run + [ev]).words|
    requires var w := Lived(cfg, run + [ev]).words[k]; w.sent && w.cw !in Lived(cfg, run).log
    ensures Fits(cfg, Lived(cfg, run + [ev]), Lived(cfg, run + [ev]).words[k])
  {
    hide Lived, Reported, Swept, Fits, Added, Distinct, Once, Fair;
    LivedNext(cfg, run, ev);
    RunKeeps(cfg, run);
    var l := Lived(cfg, run);
    match ev
    case Report(_, _, _, _, _, _, _, _) => ReportFits(cfg, l, ev, k);
    case Find(_, _, _) =>
      FoundNames(cfg, l, ev, k);
      FoundFits(cfg, l, ev, k);
    case Request =>
    case Reply(cw) => AddedNotSent(l, cw, k);
  }

  lemma AddedNotSent(l: Life, cw: Cw, k: nat)
    requires Listed(l) && k < |Added(l.words, cw, 0)| && Added(l.words, cw, 0)[k].sent
    ensures Added(l.words, cw, 0)[k].cw in l.log
  {
  }

  // ---- The bound of NeverBoth is met

  function Times(ev: Event, m: nat): (r: seq<Event>)
    ensures |r| == m
  {
    if m == 0 then [] else Times(ev, m - 1) + [ev]
  }

  /** A cache peer that forwards, by its id and its kind. */
  const FORWARDER := 0x1_0001

  /** A peer reports a word of which it says that the second half changed; nothing older is known. */
  function Claim(cw: Cw): Event {
    Report(cw, Cw1Cycle, FORWARDER, false, false, Nothing, Cw1Cycle, true)
  }

  /** Reports that stay away from the threshold only count. */
  lemma {:induction false} Counted(cfg: Config, run: seq<Event>, cw: Cw, l: Life, m: nat)
    requires Lived(cfg, run) == l && |l.words| == 1 && l.words[0].cw == cw && !l.words[0].error
    requires l.words[0].nbpeers < 65536
    requires l.words[0].nbpeers + m < (if l.words[0].nbpeers < cfg.threshold then cfg.threshold else 65536 + cfg.threshold)
    ensures Lived(cfg, run + Times(Claim(cw), m))
      == l.(words := [l.words[0].(nbpeers := (l.words[0].nbpeers + m) % 65536)])
  {
    hide Step;
    var all := run + Times(Claim(cw), m);
    if m == 0 {
      assert all == run;
      assert l.words == [l.words[0]];
    } else {
      assert all[..|all| - 1] == run + Times(Claim(cw), m - 1);
      Counted(cfg, run, cw, l, m - 1);
      CounterMoves(cfg.threshold, l.words[0].nbpeers, m);
      CountedOnce(cfg, Lived(cfg, all[..|all| - 1]), cw);
    }
  }

  lemma CounterMoves(t: nat, b: nat, m: nat)
    requires m > 0 && b < 65536 && b + m < if b < t then t else 65536 + t
    ensures ((b + m - 1) % 65536 + 1) % 65536 == (b + m) % 65536 != t
  {
  }

  lemma CountedOnce(cfg: Config, l: Life, cw: Cw)
    requires |l.words| == 1 && l.words[0].cw == cw && !l.words[0].error && (l.words[0].nbpeers + 1) % 65536 != cfg.threshold
    ensures Step(cfg, l, Claim(cw)) == l.(words := [l.words[0].(nbpeers := (l.words[0].nbpeers + 1) % 65536)])
  {
  }

  /** A known word is reported until it is passed on at the threshold; a client comes that expects the other half to
      change; and as many reports follow as take the counter round to the threshold again. */
  function Round(cfg: Config, cw: Cw): seq<Event>
    requires Sane(cfg)
  {
    var first := [Request, Reply(cw)] + Times(Claim(cw), cfg.threshold - 1);
    first + [Claim(cw), Find(Cw0Cycle, cw, false)] + Times(Claim(cw), 65535) + [Claim(cw)]
  }

  lemma LivedNext(cfg: Config, run: seq<Event>, ev: Event)
    ensures Lived(cfg, run + [ev]) == Step(cfg, Lived(cfg, run), ev)
  {
    assert (run + [ev])[..|run|] == run;
  }

  lemma RoundMarks(cfg: Config, cw: Cw)
    requires Sane(cfg) && cw[..8] != HalfNull && cw[8..] != HalfNull
    ensures |Round(cfg, cw)| == 65536 + cfg.threshold + 3
    ensures var l := Lived(cfg, Round(cfg, cw)); |l.words| == 1 && l.words[0].cw == cw && l.words[0].sent && l.words[0].error && l.log == [cw]
  {
    hide Lived, Step, Times;
    var start := [Request, Reply(cw)];
    Started(cfg, cw);
    var w := NewWord(cw, 0);
    var l := Life([w], true, NoCycle, Newborn().prevcw, []);
    Counted(cfg, start, cw, l, cfg.threshold - 1);
    var first := start + Times(Claim(cw), cfg.threshold - 1);
    PassedOn(cfg, cw, l.(words := [w.(nbpeers := cfg.threshold - 1)]));
    var second := first + [Claim(cw), Find(Cw0Cycle, cw, false)];
    LivedNext(cfg, first, Claim(cw));
    LivedNext(cfg, first + [Claim(cw)], Find(Cw0Cycle, cw, false));
    assert first + [Claim(cw)] + [Find(Cw0Cycle, cw, false)] == second;
    var v := w.(nbpeers := cfg.threshold, cycled := true, cycle := Cw1Cycle, peerid := FORWARDER, sent := true);
    var m := Life([v], true, Cw0Cycle, Newborn().prevcw, [cw]);
    Counted(cfg, second, cw, m, 65535);
    var third := second + Times(Claim(cw), 65535);
    LivedNext(cfg, third, Claim(cw));
    MarkedWrong(cfg, cw, m.(words := [v.(nbpeers := cfg.threshold - 1)]));
  }

  lemma Started(cfg: Config, cw: Cw)
    ensures Lived(cfg, [Request, Reply(cw)]) == Life([NewWord(cw, 0)], true, NoCycle, Newborn().prevcw, [])
  {
    LivedNext(cfg, [Request], Reply(cw));
    LivedNext(cfg, [], Request);
    assert [Request] + [Reply(cw)] == [Request, Reply(cw)];
    assert [] + [Request] == [Request];
    assert [NewWord(cw, 0)] + [] == [NewWord(cw, 0)];
  }

  lemma PassedOn(cfg: Config, cw: Cw, l: Life)
    requires Sane(cfg) && cw[..8] != HalfNull && cw[8..] != HalfNull
    requires l == Life([NewWord(cw, 0).(nbpeers := cfg.threshold - 1)], true, NoCycle, Newborn().prevcw, [])
    ensures Step(cfg, Step(cfg, l, Claim(cw)), Find(Cw0Cycle, cw, false))
      == Life([NewWord(cw, 0).(nbpeers := cfg.threshold, cycled := true, cycle := Cw1Cycle, peerid := FORWARDER, sent := true)], true, Cw0Cycle,
              Newborn().prevcw, [cw])
  {
    hide Step;
    ClaimPassed(cfg, cw, l);
    FoundNothing(cfg, Step(cfg, l, Claim(cw)), cw);
  }

  lemma ClaimPassed(cfg: Config, cw: Cw, l: Life)
    requires Sane(cfg) && cw[..8] != HalfNull && cw[8..] != HalfNull
    requires l == Life([NewWord(cw, 0).(nbpeers := cfg.threshold - 1)], true, NoCycle, Newborn().prevcw, [])
    ensures Step(cfg, l, Claim(cw))
      == Life([NewWord(cw, 0).(nbpeers := cfg.threshold, cycled := true, cycle := Cw1Cycle, peerid := FORWARDER, sent := true)], true, NoCycle,
              Newborn().prevcw, [cw])
  {
    hide Swept, Found, Similar, Follows;
    var v := NewWord(cw, 0).(nbpeers := cfg.threshold, cycled := true, cycle := Cw1Cycle, peerid := FORWARDER);
    assert Judge(cfg, l, l.words[0].(nbpeers := cfg.threshold), Claim(cw)) == (v, true);
  }

  lemma FoundNothing(cfg: Config, l: Life, cw: Cw)
    requires |l.words| == 1 && l.words[0].sent && IsNull(l.prevcw)
    ensures Step(cfg, l, Find(Cw0Cycle, cw, false)) == l.(sendpipe := true, cwcycle := Cw0Cycle)
  {
    var m := l.(sendpipe := true, cwcycle := Cw0Cycle);
    assert Swept(cfg, m, NoPrevious, 0) == m;
    assert Swept(cfg, m, NoPrevious, 1) == m;
  }

  lemma MarkedWrong(cfg: Config, cw: Cw, l: Life)
    requires Sane(cfg) && cw[..8] != HalfNull && cw[8..] != HalfNull
    requires |l.words| == 1 && l.cwcycle == Cw0Cycle && IsNull(l.prevcw)
    requires l.words[0].cw == cw && !l.words[0].error && l.words[0].sent && l.words[0].nbpeers == cfg.threshold - 1
    ensures var r := Step(cfg, l, Claim(cw)); |r.words| == 1 && r.words[0].cw == cw && r.words[0].sent && r.words[0].error && r.log == l.log
  {
  }
}
