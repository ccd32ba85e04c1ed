/** An entry of the shared cache, updated in place. */
module CacheEntry {
  import opened Bits
  import opened CacheWords

  function Flag(b: bool, value: int): int {
    if b then value else 0
  }

  /** The status byte of a word: error 1, cycle 2, sent 16. */
  function Status(w: Word): int {
    Flag(w.error, 1) + Flag(w.cycled, 2) + Flag(w.sent, 16)
  }

  /** What a report answers: error and skip for a repeated word or one that is not at the threshold, error for one
      already marked as wrong, and otherwise the status of the judged word. */
  function Answer(cfg: Config, l: Life, ev: Event): int
    requires ev.Report?
  {
    if Skipped(l, ev) then 9
    else
      var words := Added(l.words, ev.cw, ev.peerid);
      var w := Bumped(words[Index(words, ev.cw)]);
      if w.error then 1
      else if w.nbpeers != cfg.threshold then 9
      else
        var (v, pass) := Judge(cfg, l, w, ev);
        Status(v.(sent := v.sent || (pass && l.sendpipe)))
  }

  function Bumped(w: Word): Word {
    w.(nbpeers := (w.nbpeers + 1) % 65536)
  }

  datatype Key = Key(tag: byte, sid: bv16, caid: bv16, hash: bv32, provid: bv32)

  class Entry {
    var next: Entry?
    var prev: Entry?
    var sendpipe: bool
    var cwcycle: Cycle
    var prevcw: Cw
    var cwdata: seq<Word>
    var notified: seq<Cw>
    var recvtime: nat
    var validtime: nat
    var tag: byte
    var sid: bv16
    var caid: bv16
    var hash: bv32
    var provid: bv32
    ghost var run: seq<Event>

    constructor ()
      ensures View() == Newborn() && run == [] && next == null && prev == null
    {
      next, prev := null, null;
      sendpipe, cwcycle, prevcw, cwdata, notified := false, NoCycle, Newborn().prevcw, [], [];
      recvtime, validtime, tag, sid, caid, hash, provid := 0, 0, 0, 0, 0, 0, 0;
      run := [];
    }

    function View(): Life
      reads this`sendpipe, this`cwcycle, this`prevcw, this`cwdata, this`notified
    {
      Life(cwdata, sendpipe, cwcycle, prevcw, notified)
    }

    /** The entry is where its run has taken it. */
    ghost predicate Valid(cfg: Config)
      reads this`sendpipe, this`cwcycle, this`prevcw, this`cwdata, this`notified, this`run
    {
      View() == Lived(cfg, run)
    }

    method FindWord(cw: Cw) returns (k: nat)
      ensures k == Index(cwdata, cw)
    {
      k := 0;
      while k < |cwdata| && cwdata[k].cw != cw
        invariant k <= |cwdata| && forall j :: 0 <= j < k ==> cwdata[j].cw != cw
      {
        k := k + 1;
      }
    }

    /** `pipe_cache2ecm_find_success` for the word at `k`. */
    method Notify(k: nat)
      requires k < |cwdata|
      modifies this`cwdata, this`notified
      ensures View() == Sent(old(View()), k)
    {
      notified := notified + [cwdata[k].cw];
      cwdata := cwdata[k := cwdata[k].(sent := true)];
    }

    method SimilarFollows(cw: Cw) returns (r: bool)
      ensures r == Follows(cwcycle, prevcw, cw)
    {
      if cwcycle == Cw1Cycle && prevcw[..8] == cw[..8] {
        var similar := SimilarCw(prevcw[8..], cw[8..]);
        return !similar;
      }
      if cwcycle == Cw0Cycle && prevcw[8..] == cw[8..] {
        var similar := SimilarCw(prevcw[..8], cw[..8]);
        return !similar;
      }
      return false;
    }

    /** The part of `cache_setdcw` behind the threshold. */
    method JudgeWord(cfg: Config, word: Word, ghost ev: Event, cw: Cw, cycle: Cycle, peerid: int, nds: bool, past: Past,
                     pastcycle: Cycle, unseen: bool) returns (w: Word, pass: bool)
      requires ev.Report? && ev == Report(cw, cycle, peerid, ev.skip, nds, past, pastcycle, unseen)
      ensures (w, pass) == Judge(cfg, View(), word, ev)
    {
      hide Follows, IsNull, HalfNull;
      if cw[..8] != HalfNull && cw[8..] != HalfNull {
        w, pass := JudgeFull(cfg, word, ev, cw, cycle, peerid, past, pastcycle);
      } else {
        w, pass := word, false;
        if !nds {
          w := w.(error := true);
          return;
        }
        var cwcycle' := if cw[..8] == HalfNull then Cw1Cycle else Cw0Cycle;
        if cfg.filter && !unseen {
          w := w.(error := true);
          return;
        }
        w := w.(cycled := true, cycle := cwcycle', peerid := peerid);
        pass := true;
      }
    }

    /** The branch for words with two halves. */
    method JudgeFull(cfg: Config, word: Word, ghost ev: Event, cw: Cw, cycle: Cycle, peerid: int, past: Past, pastcycle: Cycle)
      returns (w: Word, pass: bool)
      requires ev.Report? && ev == Report(cw, cycle, peerid, ev.skip, ev.nds, past, pastcycle, ev.unseen)
      requires cw[..8] != HalfNull && cw[8..] != HalfNull
      ensures (w, pass) == Judge(cfg, View(), word, ev)
    {
      hide Follows, IsNull, HalfNull;
      var cwcycle' := cycle;
      w, pass := word, false;
      if !IsNull(prevcw) {
        var follows := SimilarFollows(cw);
        if follows {
          return w.(cycled := true, cycle := cwcycle, peerid := peerid), true;
        }
      }
      if cfg.filter && cycle == NoCycle {
        if past == Bad {
          w := w.(error := true);
        } else if past == InCycle {
          w := w.(cycled := true);
        }
        cwcycle' := pastcycle;
        w := w.(cycle := cwcycle', peerid := peerid);
        if !w.cycled {
          return;
        }
      } else {
        w := w.(cycled := true, cycle := cwcycle', peerid := peerid);
      }
      if cwcycle != NoCycle && cwcycle != cwcycle' {
        w := w.(error := true);
        return;
      }
      pass := true;
    }

    /** Finds or adds the word and counts the report. */
    method CountReport(cw: Cw, peerid: int) returns (k: nat)
      modifies this`cwdata
      ensures var words := Added(old(cwdata), cw, peerid);
        k == Index(words, cw) && k < |words| && cwdata == words[k := Bumped(words[k])]
    {
      AddedIndex(cwdata, cw, peerid);
      k := FindWord(cw);
      if k == |cwdata| {
        cwdata := [NewWord(cw, peerid)] + cwdata;
        k := 0;
      }
      cwdata := cwdata[k := Bumped(cwdata[k])];
    }

    /** `cache_setdcw` once the entry is found. */
    method SetDcw(cfg: Config, cw: Cw, cycle: Cycle, peerid: int, skip: bool, nds: bool, past: Past, pastcycle: Cycle, unseen: bool)
      returns (status: int)
      modifies this`cwdata, this`notified, this`run
      ensures var ev := Report(cw, cycle, peerid, skip, nds, past, pastcycle, unseen);
        && run == old(run) + [ev] && View() == Step(cfg, old(View()), ev) && status == Answer(cfg, old(View()), ev)
    {
      hide Judge, IsNull, Index;
      ghost var ev := Report(cw, cycle, peerid, skip, nds, past, pastcycle, unseen);
      ghost var l := View();
      run := run + [ev];
      if skip && !IsNull(prevcw) && prevcw == cw {
        return 9;
      }
      var k := CountReport(cw, peerid);
      ghost var words := Added(l.words, cw, peerid);
      ghost var m := l.(words := words);
      var w := cwdata[k];
      if cwdata[k].error {
        return 1;
      }
      if cwdata[k].nbpeers != cfg.threshold {
        return 9;
      }
      JudgeAlike(cfg, m, View(), w, ev);
      JudgeAlike(cfg, l, View(), w, ev);
      var v, pass := JudgeWord(cfg, w, ev, cw, cycle, peerid, nds, past, pastcycle, unseen);
      cwdata := cwdata[k := v];
      assert cwdata == m.words[k := v];
      if pass && sendpipe && !cwdata[k].sent {
        Notify(k);
      }
      return Status(cwdata[k]);
    }

    /** One pass over the words for a client that asks. */
    method Sweep(cfg: Config, pass: Pass)
      modifies this`cwdata, this`notified
      ensures View() == Swept(cfg, old(View()), pass, |old(cwdata)|)
    {
      hide Follows, Wanted;
      ghost var l := View();
      var i := 0;
      while i < |cwdata|
        invariant i <= |cwdata| == |l.words| && View() == Swept(cfg, l, pass, i)
      {
        if Wanted(cfg, View(), cwdata[i], pass) {
          Notify(i);
        }
        i := i + 1;
      }
    }

    /** `PIPE_CACHE_FIND` once the entry is found. */
    method Find(cfg: Config, cycle: Cycle, prev: Cw, hasPrev: bool)
      modifies this`sendpipe, this`cwcycle, this`prevcw, this`cwdata, this`notified, this`run
      ensures var ev := Event.Find(cycle, prev, hasPrev);
        run == old(run) + [ev] && View() == Step(cfg, old(View()), ev)
    {
      hide Swept, IsNull;
      run := run + [Event.Find(cycle, prev, hasPrev)];
      cwcycle := cycle;
      if hasPrev {
        prevcw := prev;
      }
      sendpipe := true;
      if !IsNull(prevcw) {
        Sweep(cfg, SameCycle);
        Sweep(cfg, Uncycled);
      } else {
        Sweep(cfg, NoPrevious);
      }
    }

    /** `PIPE_CACHE_REQUEST` once the entry is found. */
    method Ask(cfg: Config)
      modifies this`sendpipe, this`run
      ensures run == old(run) + [Request] && View() == Step(cfg, old(View()), Request)
    {
      run := run + [Request];
      sendpipe := true;
    }

    /** `PIPE_CACHE_REPLY` once the entry is found. */
    method Store(cfg: Config, cw: Cw)
      modifies this`cwdata, this`run
      ensures run == old(run) + [Reply(cw)] && View() == Step(cfg, old(View()), Reply(cw))
    {
      hide Index;
      run := run + [Reply(cw)];
      AddedIndex(cwdata, cw, 0);
      var k := FindWord(cw);
      if k == |cwdata| {
        cwdata := [NewWord(cw, 0)] + cwdata;
      }
    }

    function Named(): Key
      reads this`tag, this`sid, this`caid, this`hash, this`provid
    {
      Key(tag, sid, caid, hash, provid)
    }

    /** The entry forgets everything and starts a new life. */
    method Begin(key: Key, ttl: nat, ticks: nat)
      modifies this`recvtime, this`validtime, this`tag, this`sid, this`caid, this`hash, this`provid
      modifies this`sendpipe, this`cwcycle, this`prevcw, this`cwdata, this`notified, this`run
      ensures View() == Newborn() && run == []
      ensures Named() == key && recvtime == ticks && validtime == ttl
    {
      recvtime, validtime := ticks, ttl;
      tag, sid, caid, hash, provid := key.tag, key.sid, key.caid, key.hash, key.provid;
      sendpipe, cwcycle, prevcw, cwdata, notified := false, NoCycle, Newborn().prevcw, [], [];
      run := [];
    }
  }

  lemma JudgeAlike(cfg: Config, l: Life, m: Life, w: Word, ev: Event)
    requires ev.Report? && l.cwcycle == m.cwcycle && l.prevcw == m.prevcw
    ensures Judge(cfg, l, w, ev) == Judge(cfg, m, w, ev)
  {
    hide Follows, IsNull;
  }
}
