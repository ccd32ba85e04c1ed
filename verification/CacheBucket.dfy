/** The entries of one bucket of the shared cache, newest first. */
module CacheBucket {
  import opened Bits
  import opened CacheWords
  import opened CacheEntry
  import opened CacheRing
  import opened CacheScan
  import opened CacheMarks
  import Walks

  class Bucket {
    var head: Entry?
    ghost var entries: seq<Entry>
    ghost var clock: nat
    const cfg: Config
    const alivetime: nat
    const filtertime: nat
    const strictprov: bool

    constructor (cfg: Config, alivetime: nat, filtertime: nat, strictprov: bool)
      ensures Valid() && entries == [] && clock == 0
      ensures this.cfg == cfg && this.alivetime == alivetime && this.filtertime == filtertime && this.strictprov == strictprov
    {
      this.cfg, this.alivetime, this.filtertime, this.strictprov := cfg, alivetime, filtertime, strictprov;
      head, entries, clock := null, [], 0;
    }

    /** The entries form a ring, each is where its run has taken it, and the newest comes first. */
    ghost predicate Valid()
      reads this, entries
    {
      && Linked(head, entries)
      && (forall i :: 0 <= i < |entries| ==> entries[i].Valid(cfg) && entries[i].recvtime <= clock)
      && NewestFirst(entries)
    }

    predicate Alive(e: Entry, ticks: nat)
      reads e`recvtime, e`validtime
    {
      e.recvtime + (if e.validtime != 0 then e.validtime else alivetime) >= ticks
    }

    predicate Answers(e: Entry, key: Key)
      reads e`hash, e`sid, e`tag, e`provid
    {
      && e.hash == key.hash && e.sid == key.sid
      && (e.tag == key.tag || e.tag == 0 || key.tag == 0)
      && (!strictprov || e.provid == 0 || key.provid == 0 || e.provid == key.provid)
    }

    ghost function Living(s: seq<Entry>, ticks: nat): (t: seq<bool>)
      reads s
      ensures |t| == |s| && forall i :: 0 <= i < |s| ==> t[i] == Alive(s[i], ticks)
    {
      if s == [] then [] else [Alive(s[0], ticks)] + Living(s[1..], ticks)
    }

    ghost function Matching(s: seq<Entry>, key: Key): (t: seq<bool>)
      reads s
      ensures |t| == |s| && forall i :: 0 <= i < |s| ==> t[i] == Answers(s[i], key)
    {
      if s == [] then [] else [Answers(s[0], key)] + Matching(s[1..], key)
    }

    lemma RingOfEntries()
      requires Valid()
      ensures Linked(head, entries)
    {
    }

    /** What `cache_fetch` finds. */
    ghost function Fetched(key: Key, ticks: nat): Entry?
      reads this, entries
    {
      var k := Walks.Scan(Living(entries, ticks), Matching(entries, key));
      if k < |entries| then entries[k] else null
    }

    ghost predicate AllLive(ticks: nat)
      reads this`entries, entries
    {
      forall i :: 0 <= i < |entries| ==> entries[i].recvtime + (if entries[i].validtime == 0 then alivetime else entries[i].validtime) >= ticks
    }

    /** The entry is that of another request: another hash or service, another known tag, or, where the provider counts,
        another known provider. */
    predicate Misses(e: Entry, key: Key)
      reads e`hash, e`sid, e`tag, e`provid
    {
      || e.hash != key.hash || e.sid != key.sid
      || (e.tag != 0 && key.tag != 0 && e.tag != key.tag)
      || (strictprov && e.provid != 0 && key.provid != 0 && e.provid != key.provid)
    }

    lemma FetchedAnswers(key: Key, ticks: nat)
      ensures var e := Fetched(key, ticks); e != null ==>
        && e in entries && e.hash == key.hash && e.sid == key.sid
        && (e.tag == key.tag || e.tag == 0 || key.tag == 0)
        && (strictprov ==> e.provid == key.provid || e.provid == 0 || key.provid == 0)
        && e.recvtime + (if e.validtime == 0 then alivetime else e.validtime) >= ticks
      ensures Fetched(key, ticks) == null && AllLive(ticks) ==> forall i :: 0 <= i < |entries| ==> Misses(entries[i], key)
    {
      hide Living, Matching;
      if Fetched(key, ticks) == null && AllLive(ticks) {
        var live, hit := Living(entries, ticks), Matching(entries, key);
        forall i | 0 <= i < |entries|
          ensures Misses(entries[i], key)
        {
          if Answers(entries[i], key) {
            Walks.ScanFinds(live, hit, i);
          }
        }
      }
    }

    method Fetch(key: Key, ticks: nat) returns (e: Entry?)
      requires Linked(head, entries)
      ensures e == Fetched(key, ticks)
      ensures e != null ==> e in entries && e.hash == key.hash && e.sid == key.sid
      ensures e != null ==> e.tag == key.tag || e.tag == 0 || key.tag == 0
      ensures e != null && strictprov ==> e.provid == key.provid || e.provid == 0 || key.provid == 0
      ensures e != null ==> e.recvtime + (if e.validtime == 0 then alivetime else e.validtime) >= ticks
      ensures e == null && AllLive(ticks) ==> forall i :: 0 <= i < |entries| ==> Misses(entries[i], key)
    {
      FetchedAnswers(key, ticks);
      hide Living, Matching, Walks.Scan, Linked, Alive, Answers, AllLive, Misses;
      Head(head, entries);
      var p := head;
      ghost var i := 0;
      while p != null
        invariant i <= |entries| && (if p == null then i == |entries| else i < |entries| && p == entries[i])
        invariant forall j :: 0 <= j < i ==> Alive(entries[j], ticks) && !Answers(entries[j], key)
        decreases |entries| - i
      {
        if !Alive(p, ticks) {
          Walks.ScanIs(Living(entries, ticks), Matching(entries, key), i);
          return null;
        }
        if Answers(p, key) {
          Walks.ScanIs(Living(entries, ticks), Matching(entries, key), i);
          return p;
        }
        Onward(head, entries, i);
        p := p.next;
        i := i + 1;
        if p == head {
          break;
        }
      }
      Walks.ScanIs(Living(entries, ticks), Matching(entries, key), i);
      return null;
    }

    /** When all entries share one time to live the lookup finds the newest living match, and null means there is none. */
    lemma FetchFindsNewest(key: Key, ticks: nat, ttl: nat)
      requires Valid() && forall i :: 0 <= i < |entries| ==> entries[i].validtime == ttl
      ensures Fetched(key, ticks) == null <==>
        forall i :: 0 <= i < |entries| && Alive(entries[i], ticks) ==> !Answers(entries[i], key)
      ensures var e := Fetched(key, ticks); e != null ==> e in entries && Alive(e, ticks) && Answers(e, key)
      ensures var e := Fetched(key, ticks); e != null ==>
        forall i :: 0 <= i < |entries| && Alive(entries[i], ticks) && Answers(entries[i], key) ==> entries[i].recvtime <= e.recvtime
    {
      hide Living, Matching, Walks.Scan, CacheWords.Lived, Linked, Answers;
      var live, hit := Living(entries, ticks), Matching(entries, key);
      forall i | 0 <= i < |entries| && live[i] && hit[i]
        ensures Walks.Scan(live, hit) <= i
      {
        Walks.ScanFinds(live, hit, i);
      }
      forall i | 0 <= i < |entries| && Alive(entries[i], ticks) && Answers(entries[i], key)
        ensures Fetched(key, ticks) != null && entries[i].recvtime <= Fetched(key, ticks).recvtime
      {
        assert live[i] && hit[i];
      }
    }

    /** The last moment of each entry. */
    ghost function Ends(s: seq<Entry>): (t: seq<nat>)
      reads s
      ensures |t| == |s|
      ensures forall i :: 0 <= i < |s| ==> t[i] == s[i].recvtime + if s[i].validtime != 0 then s[i].validtime else alivetime
    {
      if s == [] then []
      else [s[0].recvtime + if s[0].validtime != 0 then s[0].validtime else alivetime] + Ends(s[1..])
    }

    /** With a time to live of its own for each entry the lookup is complete at every time exactly when the entries die
        from the last to the first. */
    lemma FetchCompleteIff()
      ensures (forall ticks: nat :: Walks.NeverMisses(Living(entries, ticks))) <==> Walks.Descending(Ends(entries))
    {
      hide Living, Ends, Walks.NeverMisses, Walks.AliveAt;
      var e := Ends(entries);
      Walks.CompleteIff(e);
      forall ticks: nat
        ensures Walks.NeverMisses(Living(entries, ticks)) == Walks.NeverMisses(Walks.AliveAt(e, ticks))
      {
        assert Living(entries, ticks) == Walks.AliveAt(e, ticks);
      }
      if !Walks.AlwaysComplete(e) {
        var now: nat :| !Walks.NeverMisses(Walks.AliveAt(e, now));
        assert !Walks.NeverMisses(Living(entries, now));
      }
    }

    /** Whatever happened to the bucket: an entry holds no word twice, passes each on at most once and only after as
        many reports as the threshold asks for, and none of them is marked as wrong before its counter has gone round. */
    lemma EntryPromises(e: Entry, k: nat)
      requires Valid() && e in entries && Sane(cfg) && k < |e.cwdata|
      ensures Distinct(e.cwdata) && Once(e.notified)
      ensures e.cwdata[k].cw in e.notified <==> e.cwdata[k].sent
      ensures e.cwdata[k].sent ==> Reports(cfg, e.run, e.cwdata[k].cw) >= cfg.threshold
      ensures e.cwdata[k].sent && e.cwdata[k].error ==> Reports(cfg, e.run, e.cwdata[k].cw) >= 65536 + cfg.threshold
    {
      hide Step, Reports, Lived, Tally, Index;
      var cw := e.cwdata[k].cw;
      RunKeeps(cfg, e.run);
      PassedOnOnce(cfg, e.run, cw);
      NeverBoth(cfg, e.run, k);
    }

    lemma BornValid(e: Entry)
      requires e.View() == Newborn() && e.run == []
      ensures e.Valid(cfg)
    {
    }

    static lemma NewestOfRest(s: seq<Entry>)
      requires NewestFirst(s) && s != []
      ensures NewestFirst(s[..|s| - 1])
    {
    }

    static lemma NewestInFront(e: Entry, rest: seq<Entry>)
      requires NewestFirst(rest) && forall i :: 0 <= i < |rest| ==> rest[i].recvtime <= e.recvtime
      ensures NewestFirst([e] + rest)
    {
    }

    /** Takes an entry for a new life into the ring: the oldest one when it is dead and there is another. */
    method Place(ticks: nat) returns (e: Entry, ghost rest: seq<Entry>)
      requires Linked(head, entries) && NewestFirst(entries)
      modifies this`head, this`entries, entries`next, entries`prev
      ensures Linked(head, entries) && entries == [e] + rest && e !in rest && NewestFirst(rest)
      ensures if |old(entries)| > 1 && !old(Alive(entries[|entries| - 1], ticks))
              then e == old(entries)[|old(entries)| - 1] && rest == old(entries)[..|old(entries)| - 1]
              else fresh(e) && rest == old(entries)
    {
      hide Alive, NewestFirst, Linked, Distinct, Newborn, Entry.View;
      Head(head, entries);
      rest := entries;
      if head == null {
        e := new Entry();
        Single(e);
      } else if head.next == null {
        e := new Entry();
        Pair(head, e, entries);
      } else {
        e := head.prev;
        if !Alive(e, ticks) {
          NewestOfRest(entries);
          Rotated(head, e, entries);
          rest := entries[..|entries| - 1];
          e.next := head;
        } else {
          e := new Entry();
          Insert(head, e, entries);
        }
      }
      head := e;
      entries := [e] + rest;
    }

    /** `cache_new`. */
    method New(key: Key, validtime: nat, ticks: nat) returns (e: Entry)
      requires Valid() && clock <= ticks
      modifies this`head, this`entries, this`clock, entries
      ensures Valid() && clock == ticks
      ensures if |old(entries)| > 1 && !old(Alive(entries[|entries| - 1], ticks))
              then e == old(entries)[|old(entries)| - 1] && entries == [e] + old(entries)[..|old(entries)| - 1]
              else fresh(e) && entries == [e] + old(entries)
      ensures e.View() == Newborn() && e.run == [] && e.recvtime == ticks && e.validtime == validtime
      ensures e.Named() == key
      ensures forall m :: m in old(entries) && m != e ==> m.View() == old(m.View()) && m.run == old(m.run) && m.recvtime == old(m.recvtime)
      ensures forall m :: m in old(entries) && m != e ==> m.Named() == old(m.Named()) && m.validtime == old(m.validtime)
    {
      hide Lived, Newborn, Alive, Entry.View, Entry.Named, Entry.Valid, NewestFirst, Linked;
      ghost var rest;
      e, rest := Place(ticks);
      Front(e, rest, key, validtime, ticks);
    }

    /** The entry in front starts a new life. */
    method Front(e: Entry, ghost rest: seq<Entry>, key: Key, validtime: nat, ticks: nat)
      requires entries == [e] + rest && e !in rest && Linked(head, entries) && NewestFirst(rest) && clock <= ticks
      requires forall i :: 0 <= i < |rest| ==> rest[i].Valid(cfg) && rest[i].recvtime <= clock
      modifies this`clock, e`recvtime, e`validtime, e`tag, e`sid, e`caid, e`hash, e`provid
      modifies e`sendpipe, e`cwcycle, e`prevcw, e`cwdata, e`notified, e`run
      ensures Valid() && clock == ticks
      ensures e.View() == Newborn() && e.run == [] && e.recvtime == ticks && e.validtime == validtime && e.Named() == key
    {
      hide Lived, Newborn, Entry.View, Entry.Named, Entry.Valid, NewestFirst, Linked;
      e.Begin(key, validtime, ticks);
      clock := ticks;
      BornValid(e);
      NewestInFront(e, rest);
    }

    /** The run so far of the entry that answers to a key: none when it has to be made. */
    ghost function RunOf(key: Key, ticks: nat): seq<Event>
      reads this, entries
    {
      var e := Fetched(key, ticks);
      if e == null then [] else e.run
    }

    static predicate IsNds(caid: bv16) {
      caid & 0xff00 == 0x0900
    }

    /** Fills in what an entry lacks. */
    method Complete(e: Entry, key: Key)
      requires Valid() && e in entries
      modifies e`tag, e`provid
      ensures Valid()
      ensures e.tag == if old(e.tag) == 0 then key.tag else old(e.tag)
      ensures e.provid == if old(e.provid) == 0 then key.provid else old(e.provid)
    {
      hide Lived, Entry.Valid, NewestFirst, Linked;
      if e.tag == 0 {
        e.tag := key.tag;
      }
      if e.provid == 0 && key.provid != 0 {
        e.provid := key.provid;
      }
    }

    /** The entry that answers to a key, or a new one. */
    method Obtain(key: Key, validtime: nat, ticks: nat) returns (e: Entry, isNew: bool)
      requires Valid() && clock <= ticks
      modifies this`head, this`entries, this`clock, entries
      ensures Valid() && clock == ticks && e in entries && e.run == old(RunOf(key, ticks))
      ensures isNew == (old(Fetched(key, ticks)) == null)
      ensures e in old(entries) || fresh(e)
      ensures !isNew ==> e == old(Fetched(key, ticks)) && entries == old(entries) && e.run == old(e.run)
      ensures !isNew ==> e.Named() == old(e.Named()) && e.recvtime == old(e.recvtime) && e.validtime == old(e.validtime)
      ensures isNew ==> e == entries[0] && e.run == [] && e.View() == Newborn() && e.Named() == key && e.recvtime == ticks
      ensures isNew && old(entries) == [] ==> entries == [e] && e.validtime == validtime
      ensures forall m :: m in old(entries) && (m != e || !isNew) ==> m.View() == old(m.View()) && m.run == old(m.run)
    {
      hide Fetched, Entry.Valid, Entry.View, Entry.Named, Newborn, NewestFirst, Alive, Linked;
      var found := Fetch(key, ticks);
      isNew := found == null;
      if isNew {
        e := New(key, validtime, ticks);
      } else {
        FetchedIsIn(key, ticks);
        e := found;
        clock := ticks;
      }
    }

    /** The same for a report, which only fills in what the entry lacks. */
    method ObtainFor(key: Key, validtime: nat, ticks: nat) returns (e: Entry)
      requires Valid() && clock <= ticks
      modifies this`head, this`entries, this`clock, entries
      ensures Valid() && e in entries && e.run == old(RunOf(key, ticks)) && (e in old(entries) || fresh(e))
      ensures e.View() == Lived(cfg, e.run)
      ensures clock == ticks && (old(entries) == [] ==> entries == [e] && e.Named() == key && e.recvtime == ticks && e.validtime == validtime)
      ensures old(Fetched(key, ticks)) != null ==> e == old(Fetched(key, ticks)) && entries == old(entries)
      ensures old(Fetched(key, ticks)) != null ==> e.recvtime == old(e.recvtime) && e.validtime == old(e.validtime)
      ensures old(Fetched(key, ticks)) != null && old(e.Named()) == key ==> e.Named() == key
      ensures forall m :: m in old(entries) && m != e ==> m.run == old(m.run)
    {
      hide Fetched, Lived, Step, Newborn, NewestFirst, Alive, Entry.Valid, Entry.View, RunOf, Linked;
      var isNew;
      e, isNew := Obtain(key, validtime, ticks);
      if !isNew {
        Complete(e, key);
      }
      WhereItsRunIs(e);
    }

    lemma FetchedIsIn(key: Key, ticks: nat)
      ensures Fetched(key, ticks) != null ==> Fetched(key, ticks) in entries
    {
    }

    lemma Stepped(e: Entry, l: Life, run: seq<Event>, ev: Event)
      requires l == Lived(cfg, run) && e.View() == Step(cfg, l, ev) && e.run == run + [ev]
      ensures e.Valid(cfg)
    {
      LivedNext(cfg, run, ev);
    }

    method ReportTo(e: Entry, cw: Cw, cycle: Cycle, peerid: int, skip: bool, nds: bool, past: Past, pastcycle: Cycle, unseen: bool)
      returns (status: int)
      requires Valid() && e in entries
      modifies e`cwdata, e`notified, e`run
      ensures Valid() && e.run == old(e.run) + [Report(cw, cycle, peerid, skip, nds, past, pastcycle, unseen)]
      ensures status == Answer(cfg, old(e.View()), Report(cw, cycle, peerid, skip, nds, past, pastcycle, unseen))
    {
      hide Lived, Step, NewestFirst, Answer, Linked;
      ghost var l, run := e.View(), e.run;
      status := e.SetDcw(cfg, cw, cycle, peerid, skip, nds, past, pastcycle, unseen);
      Stepped(e, l, run, Report(cw, cycle, peerid, skip, nds, past, pastcycle, unseen));
    }

    /** The half of a word that may not have been seen before when the other one is null. */
    static function LiveHalf(cw: Cw): seq<byte> {
      if cw[..8] == HalfNull then cw[8..] else cw[..8]
    }

    /** The report of a word to the entry `e`: what the profiles say, and the older entries, whose words are `words`. */
    ghost predicate IsReport(ev: Event, e: Entry, words: seq<seq<Word>>, t: Window, cw: Cw, cycle: Cycle, peerid: int,
                             profiles: seq<SkipProfile>)
      requires |words| == |entries|
      reads this`entries, entries`recvtime, entries`sid, entries`hash, entries`provid, entries`tag
      reads e`recvtime, e`sid, e`hash, e`provid, e`tag, e`caid
    {
      && ev.Report? && ev.cw == cw && ev.cycle == cycle && ev.peerid == peerid
      && ev.skip == SomeSkips(profiles, e.caid, e.sid)
      && (ev.past, ev.pastcycle) == PastOf(KinWords(entries, words, e, t), cw, cycle)
      && ev.unseen == Unseen(entries, words, e, t, strictprov, LiveHalf(cw))
    }

    /** The words of the entries other than `e`. */
    ghost predicate Others(words: seq<seq<Word>>, e: Entry)
      reads this`entries, entries`cwdata
    {
      |words| == |entries| && forall i :: 0 <= i < |entries| && entries[i] != e ==> words[i] == entries[i].cwdata
    }

    /** What the profiles and the older entries say of a word for the entry `e`. */
    method Weigh(e: Entry, t: Window, cw: Cw, cycle: Cycle, peerid: int, nds: bool, profiles: seq<SkipProfile>)
      returns (skip: bool, past: Past, pastcycle: Cycle, unseen: bool, ghost ev: Event, ghost words: seq<seq<Word>>)
      requires Valid() && e in entries
      ensures ev == Report(cw, cycle, peerid, skip, nds, past, pastcycle, unseen)
      ensures Others(words, e) && IsReport(ev, e, words, t, cw, cycle, peerid, profiles)
    {
      hide Entry.Valid, NewestFirst, Linked, Kin, KinWords, PastOf, Unseen, SomeSkips, WordsOf;
      words := WordsOf(entries);
      skip := FindSkip(profiles, e.caid, e.sid);
      past, pastcycle := FetchCycle(head, e, t, cw, cycle, entries);
      unseen := CheckSame(head, e, t, strictprov, LiveHalf(cw), entries);
      ev := Report(cw, cycle, peerid, skip, nds, past, pastcycle, unseen);
    }

    method ScanAndReport(e: Entry, t: Window, cw: Cw, cycle: Cycle, peerid: int, nds: bool, profiles: seq<SkipProfile>)
      returns (status: int, ghost ev: Event, ghost words: seq<seq<Word>>)
      requires Valid() && e in entries
      modifies e`cwdata, e`notified, e`run
      ensures Valid() && e.run == old(e.run) + [ev]
      ensures Others(words, e) && IsReport(ev, e, words, t, cw, cycle, peerid, profiles) && ev.Report? && ev.nds == nds
      ensures status == Answer(cfg, old(e.View()), ev)
    {
      hide Valid, Entry.Valid, Entry.View, IsReport, Answer;
      var skip, past, pastcycle, unseen;
      skip, past, pastcycle, unseen, ev, words := Weigh(e, t, cw, cycle, peerid, nds, profiles);
      status := ReportTo(e, cw, cycle, peerid, skip, nds, past, pastcycle, unseen);
    }

    /** An entry is never among the older ones that are asked about its words. */
    lemma OlderAreOthers(e: Entry, t: Window)
      ensures forall i :: 0 <= i < |entries| && (Kin(entries[i], e, t) || Peer(entries[i], e, t, strictprov)) ==> entries[i] != e
    {
    }

    /** With the filter on, a word that comes without a cycle and does not follow the previous word is passed at its
        first judgement only if an older entry of the channel holds a good word from which exactly one half changed,
        the one its cycle names. */
    lemma FilteredWordHasAncestor(e: Entry, words: seq<seq<Word>>, t: Window, l: Life, w: Word, ev: Event, cw: Cw, peerid: int,
                                  profiles: seq<SkipProfile>)
      requires Others(words, e) && IsReport(ev, e, words, t, cw, NoCycle, peerid, profiles) && cfg.filter
      requires cw[..8] != HalfNull && cw[8..] != HalfNull && !w.cycled && Judge(cfg, l, w, ev).1
      requires IsNull(l.prevcw) || !Follows(l.cwcycle, l.prevcw, cw)
      ensures var c := Judge(cfg, l, w, ev).0.cycle;
        exists i, w ::
          0 <= i < |entries| && entries[i] != e && Kin(entries[i], e, t) && w in entries[i].cwdata && Turned(w, cw) == c != NoCycle
    {
      hide Follows, IsNull, Turned, Settles, Kin, KinWords, PastOf, Unseen, SomeSkips;
      OlderAreOthers(e, t);
      var met := KinWords(entries, words, e, t);
      PastMeans(met, cw, NoCycle);
      var k :| LastTurned(met, cw, k);
      KinWordsAre(entries, words, e, t, met[k]);
      var i :| 0 <= i < |entries| && Kin(entries[i], e, t) && met[k] in words[i];
      assert met[k] in entries[i].cwdata;
    }

    /** With the filter on, a full word that comes without a cycle, follows no known word and reaches the threshold is
        answered as wrong and never passed on when the first word of the older entries of the channel that settles the
        matter is the same word. */
    lemma SameWordStaysOut(e: Entry, words: seq<seq<Word>>, t: Window, run: seq<Event>, ev: Event, later: seq<Event>, cw: Cw,
                           peerid: int, profiles: seq<SkipProfile>, k: int)
      requires Valid() && e in entries && Sane(cfg) && cfg.filter && Full(cw) && |words| == |entries|
      requires IsReport(ev, e, words, t, cw, NoCycle, peerid, profiles)
      requires FirstSettles(KinWords(entries, words, e, t), cw, k) && KinWords(entries, words, e, t)[k].cw == cw
      requires Reports(cfg, run, cw) == cfg.threshold - 1 && !Skipped(Lived(cfg, run), ev) && !Continues(Lived(cfg, run), cw)
      requires e.run == run + [ev] + later
      ensures Answer(cfg, Lived(cfg, run), ev) == 1
      ensures cw !in e.notified && exists j :: 0 <= j < |e.cwdata| && e.cwdata[j].cw == cw && e.cwdata[j].error && !e.cwdata[j].sent
    {
      hide Answer, Lived, Reports, Skipped, Continues, Full, Settles, Turned, KinWords, PastOf, Unseen, SomeSkips, Linked, NewestFirst;
      PastMeans(KinWords(entries, words, e, t), cw, NoCycle);
      FoundElsewhereStaysOut(cfg, run, ev, later);
    }

    /** `cache_setdcw`. */
    method SetDcw(key: Key, validtime: nat, ticks: nat, cw: Cw, cycle: Cycle, peerid: int, profiles: seq<SkipProfile>)
      returns (status: int, ghost e: Entry?, ghost ev: Event, ghost words: seq<seq<Word>>)
      requires Valid() && clock <= ticks
      modifies this`head, this`entries, this`clock, entries
      ensures Valid() && (e == null <==> !Acceptable(key.caid, cw))
      ensures e == null ==> status == -1 && entries == old(entries)
      ensures forall m :: m in old(entries) && m != e ==> m.run == old(m.run)
      ensures e != null ==> e in entries && e.run == old(RunOf(key, ticks)) + [ev] && Others(words, e)
      ensures e != null ==> clock == ticks
      ensures e != null && old(Fetched(key, ticks)) != null ==> e == old(Fetched(key, ticks)) && entries == old(entries)
      ensures e != null && old(Fetched(key, ticks)) != null ==> e.recvtime == old(e.recvtime) && e.validtime == old(e.validtime)
      ensures e != null && old(Fetched(key, ticks)) != null && old(e.Named()) == key ==> e.Named() == key
      ensures e != null ==> ev.Report? && ev.nds == IsNds(key.caid) && status == Answer(cfg, Lived(cfg, old(RunOf(key, ticks))), ev)
      ensures e != null ==> IsReport(ev, e, words, Window(Limit(ticks, alivetime), filtertime), cw, cycle, peerid, profiles)
    {
      ev, words := Request, [];
      if !Acceptable(key.caid, cw) {
        return -1, null, ev, words;
      }
      hide Fetched, Lived, Step, Newborn, NewestFirst, Alive, Answer, Entry.Valid, Entry.View, Entry.Named, RunOf, IsReport, Others, Linked;
      var f := ObtainFor(key, validtime, ticks);
      e := f;
      var t := Window(Limit(ticks, alivetime), filtertime);
      status, ev, words := ScanAndReport(f, t, cw, cycle, peerid, IsNds(key.caid), profiles);
    }

    lemma WhereItsRunIs(e: Entry)
      requires Valid() && e in entries
      ensures e.View() == Lived(cfg, e.run)
    {
    }

    /** Overwrites what an entry knows of its tag and provider. */
    method Overwrite(e: Entry, key: Key)
      requires Valid() && e in entries
      modifies e`tag, e`provid
      ensures Valid() && e.tag == key.tag && e.provid == key.provid
    {
      hide Lived, Entry.Valid, NewestFirst, Linked;
      e.tag, e.provid := key.tag, key.provid;
    }

    method FindTo(e: Entry, cycle: Cycle, prev: Cw, hasPrev: bool)
      requires Valid() && e in entries
      modifies e`sendpipe, e`cwcycle, e`prevcw, e`cwdata, e`notified, e`run
      ensures Valid() && e.run == old(e.run) + [Event.Find(cycle, prev, hasPrev)]
    {
      hide Lived, Step, NewestFirst, Linked;
      ghost var l, run := e.View(), e.run;
      e.Find(cfg, cycle, prev, hasPrev);
      Stepped(e, l, run, Event.Find(cycle, prev, hasPrev));
    }

    /** `PIPE_CACHE_FIND`: a client waits for the word. */
    method Find(key: Key, validtime: nat, ticks: nat, cycle: Cycle, prev: Cw, hasPrev: bool) returns (e: Entry)
      requires Valid() && clock <= ticks
      modifies this`head, this`entries, this`clock, entries
      ensures Valid() && e in entries && e.run == old(RunOf(key, ticks)) + [Event.Find(cycle, prev, hasPrev)]
      ensures e.tag == key.tag && e.provid == key.provid
      ensures e in old(entries) || fresh(e)
      ensures clock == ticks && (old(entries) == [] ==> entries == [e] && e.Named() == key && e.recvtime == ticks && e.validtime == validtime)
      ensures old(Fetched(key, ticks)) != null ==> e == old(Fetched(key, ticks)) && entries == old(entries)
      ensures old(Fetched(key, ticks)) != null ==> e.recvtime == old(e.recvtime) && e.validtime == old(e.validtime)
      ensures old(Fetched(key, ticks)) != null && old(e.Named()) == key ==> e.Named() == key
      ensures forall m :: m in old(entries) && m != e ==> m.run == old(m.run)
    {
      hide Fetched, Lived, Step, Newborn, NewestFirst, Alive, Entry.Valid, Entry.View, RunOf, Linked;
      var isNew;
      e, isNew := Obtain(key, validtime, ticks);
      Overwrite(e, key);
      FindTo(e, cycle, prev, hasPrev);
    }

    method AskTo(e: Entry)
      requires Valid() && e in entries
      modifies e`sendpipe, e`cwcycle, e`prevcw, e`cwdata, e`notified, e`run
      ensures Valid() && e.run == old(e.run) + [Request]
    {
      hide Lived, Step, NewestFirst, Linked;
      ghost var l, run := e.View(), e.run;
      e.Ask(cfg);
      Stepped(e, l, run, Request);
    }

    /** `PIPE_CACHE_REQUEST`. */
    method Ask(key: Key, validtime: nat, ticks: nat) returns (e: Entry)
      requires Valid() && clock <= ticks
      modifies this`head, this`entries, this`clock, entries
      ensures Valid() && e in entries && e.run == old(RunOf(key, ticks)) + [Request]
      ensures e.tag == key.tag && e.provid == key.provid
      ensures e in old(entries) || fresh(e)
      ensures clock == ticks && (old(entries) == [] ==> entries == [e] && e.Named() == key && e.recvtime == ticks && e.validtime == validtime)
      ensures old(Fetched(key, ticks)) != null ==> e == old(Fetched(key, ticks)) && entries == old(entries)
      ensures old(Fetched(key, ticks)) != null ==> e.recvtime == old(e.recvtime) && e.validtime == old(e.validtime)
      ensures old(Fetched(key, ticks)) != null && old(e.Named()) == key ==> e.Named() == key
      ensures forall m :: m in old(entries) && m != e ==> m.run == old(m.run)
    {
      hide Fetched, Lived, Step, Newborn, NewestFirst, Alive, Entry.Valid, Entry.View, RunOf, Linked;
      var isNew;
      e, isNew := Obtain(key, validtime, ticks);
      Overwrite(e, key);
      AskTo(e);
    }

    method StoreTo(e: Entry, cw: Cw)
      requires Valid() && e in entries
      modifies e`sendpipe, e`cwcycle, e`prevcw, e`cwdata, e`notified, e`run
      ensures Valid() && e.run == old(e.run) + [Reply(cw)]
    {
      hide Lived, Step, NewestFirst, Linked;
      ghost var l, run := e.View(), e.run;
      e.Store(cfg, cw);
      Stepped(e, l, run, Reply(cw));
    }

    /** `PIPE_CACHE_REPLY`: the word was found elsewhere. */
    method Store(key: Key, validtime: nat, ticks: nat, cw: Cw) returns (e: Entry)
      requires Valid() && clock <= ticks
      modifies this`head, this`entries, this`clock, entries
      ensures Valid() && e in entries && e.run == old(RunOf(key, ticks)) + [Reply(cw)]
      ensures e.tag == key.tag && e.provid == key.provid
      ensures e in old(entries) || fresh(e)
      ensures clock == ticks && (old(entries) == [] ==> entries == [e] && e.Named() == key && e.recvtime == ticks && e.validtime == validtime)
      ensures old(Fetched(key, ticks)) != null ==> e == old(Fetched(key, ticks)) && entries == old(entries)
      ensures old(Fetched(key, ticks)) != null ==> e.recvtime == old(e.recvtime) && e.validtime == old(e.validtime)
      ensures old(Fetched(key, ticks)) != null && old(e.Named()) == key ==> e.Named() == key
      ensures forall m :: m in old(entries) && m != e ==> m.run == old(m.run)
    {
      hide Fetched, Lived, Step, Newborn, NewestFirst, Alive, Entry.Valid, Entry.View, RunOf, Linked;
      var isNew;
      e, isNew := Obtain(key, validtime, ticks);
      Overwrite(e, key);
      StoreTo(e, cw);
    }

    // ---- A bucket of one entry

    /** The only entry is that of a key. */
    ghost predicate Only(e: Entry, key: Key)
      reads this, entries, e
    {
      Valid() && entries == [e] && e.Named() == key && e.validtime == 0
    }

    lemma OnlyFetched(e: Entry, key: Key, ticks: nat)
      requires Only(e, key) && e.recvtime + alivetime >= ticks
      ensures Fetched(key, ticks) == e && RunOf(key, ticks) == e.run
    {
      hide Valid;
      Walks.ScanIs(Living(entries, ticks), Matching(entries, key), 0);
    }

    lemma NothingFetched(key: Key, ticks: nat)
      requires entries == []
      ensures Fetched(key, ticks) == null && RunOf(key, ticks) == []
    {
    }

    /** What a forwarding peer reports to the only entry is what the runs call a claim. */
    lemma ReportIsClaim(e: Entry, words: seq<seq<Word>>, t: Window, ev: Event, cw: Cw)
      requires entries == [e] && |words| == 1 && ev.Report? && !ev.nds
      requires IsReport(ev, e, words, t, cw, Cw1Cycle, FORWARDER, [])
      ensures ev == Claim(cw)
    {
      assert entries[1..] == [] && words[1..] == [];
      assert KinWords([], [], e, t) == [];
      assert KinWords(entries, words, e, t) == [];
    }

    method ReportOnce(e: Entry, key: Key, ticks: nat, cw: Cw)
      requires Only(e, key) && clock <= ticks <= e.recvtime + alivetime && Acceptable(key.caid, cw) && !IsNds(key.caid)
      modifies this`head, this`entries, this`clock, entries
      ensures Only(e, key) && entries == old(entries) && clock == ticks && e.run == old(e.run) + [Claim(cw)] && e.recvtime == old(e.recvtime)
    {
      hide Valid, Fetched, Acceptable, IsReport, Entry.Valid, Entry.View, RunOf, IsNds;
      OnlyFetched(e, key, ticks);
      ghost var status, f, ev, words := SetDcw(key, 0, ticks, cw, Cw1Cycle, FORWARDER, []);
      ReportIsClaim(e, words, Window(Limit(ticks, alivetime), filtertime), ev, cw);
    }

    method FindOnce(e: Entry, key: Key, ticks: nat, cw: Cw)
      requires Only(e, key) && clock <= ticks <= e.recvtime + alivetime
      modifies this`head, this`entries, this`clock, entries
      ensures Only(e, key) && entries == old(entries) && clock == ticks && e.run == old(e.run) + [Event.Find(Cw0Cycle, cw, false)] && e.recvtime == old(e.recvtime)
    {
      hide Valid, Fetched, Entry.Valid, Entry.View, RunOf;
      OnlyFetched(e, key, ticks);
      var f := Find(key, 0, ticks, Cw0Cycle, cw, false);
    }

    /** Two reports in every millisecond. */
    method ReportOften(e: Entry, key: Key, start: nat, cw: Cw, m: nat)
      requires Only(e, key) && clock <= start && start + m / 2 <= e.recvtime + alivetime && Acceptable(key.caid, cw) && !IsNds(key.caid)
      modifies this`head, this`entries, this`clock, entries
      ensures Only(e, key) && entries == old(entries) && clock <= start + m / 2 && e.run == old(e.run) + Times(Claim(cw), m)
      ensures e.recvtime == old(e.recvtime)
    {
      hide Valid, Entry.Named, Acceptable, IsNds, Claim;
      var i := 0;
      assert e.run == e.run + [];
      while i < m
        invariant 0 <= i <= m && Only(e, key) && entries == old(entries) && clock <= start + i / 2
        invariant e.run == old(e.run) + Times(Claim(cw), i) && e.recvtime == old(e.recvtime)
      {
        ReportOnce(e, key, start + i / 2, cw);
        i := i + 1;
      }
    }
  }

  // ---- Both failures are reached

  /** A word is passed on, and within the life of its entry so many reports follow that it is marked as wrong. */
  method MarkedEntry(cfg: Config, key: Key, cw: Cw, filtertime: nat, strictprov: bool) returns (b: Bucket, e: Entry)
    requires Sane(cfg) && Acceptable(key.caid, cw) && !Bucket.IsNds(key.caid)
    requires cw[..8] != HalfNull && cw[8..] != HalfNull
    ensures b.Valid() && b.entries == [e] && e.run == Round(cfg, cw) && b.Alive(e, b.clock)
    ensures |e.cwdata| == 1 && e.cwdata[0].cw == cw && e.cwdata[0].sent && e.cwdata[0].error && e.notified == [cw]
  {
    hide *;
    AtMostThirty(cfg);
    b, e := AskedEntry(cfg, key, cw, filtertime, strictprov);
    ghost var start := e.run;
    b.ReportOften(e, key, 1000, cw, cfg.threshold);
    b.FindOnce(e, key, 1015, cw);
    b.ReportOften(e, key, 1015, cw, 65536);
    RoundIs(cfg, cw, start, e.run);
    MarkedByRound(b, e, key, cw);
  }

  method AskedEntry(cfg: Config, key: Key, cw: Cw, filtertime: nat, strictprov: bool) returns (b: Bucket, e: Entry)
    ensures fresh(b) && fresh(e) && b.entries == [e] && b.Only(e, key) && e.run == [Request, Reply(cw)]
    ensures b.cfg == cfg && b.alivetime == 45000 && b.clock == e.recvtime == 1000
  {
    hide Bucket.Valid, Bucket.Fetched, Entry.Valid, Entry.View;
    b := new Bucket(cfg, 45000, filtertime, strictprov);
    b.NothingFetched(key, 1000);
    e := b.Ask(key, 0, 1000);
    b.OnlyFetched(e, key, 1000);
    var f := b.Store(key, 0, 1000, cw);
  }

  lemma AtMostThirty(cfg: Config)
    requires Sane(cfg)
    ensures cfg.threshold <= 30
  {
  }

  lemma RoundIs(cfg: Config, cw: Cw, start: seq<Event>, run: seq<Event>)
    requires Sane(cfg) && start == [Request, Reply(cw)]
    requires run == start + Times(Claim(cw), cfg.threshold) + [Event.Find(Cw0Cycle, cw, false)] + Times(Claim(cw), 65536)
    ensures run == Round(cfg, cw)
  {
  }

  lemma MarkedByRound(b: Bucket, e: Entry, key: Key, cw: Cw)
    requires b.Only(e, key) && Sane(b.cfg) && e.run == Round(b.cfg, cw) && b.clock <= e.recvtime + b.alivetime
    requires cw[..8] != HalfNull && cw[8..] != HalfNull
    ensures b.Valid() && b.entries == [e] && b.Alive(e, b.clock)
    ensures |e.cwdata| == 1 && e.cwdata[0].cw == cw && e.cwdata[0].sent && e.cwdata[0].error && e.notified == [cw]
  {
    hide Round, Lived;
    RoundMarks(b.cfg, cw);
  }

  /** Two entries, the older of which lives longer: it was made before the cycle of its channel was learned, the other one
      afterwards. The lookup stops at the other one and returns null, although the entry it asks for lives in the bucket. */
  method HiddenEntry(cfg: Config, filtertime: nat, strictprov: bool) returns (b: Bucket, e: Entry, r: Entry?)
    ensures b.Valid() && b.alivetime == 45000 && e in b.entries && b.Alive(e, 32000) && b.Answers(e, e.Named())
    ensures e.recvtime == 1000 && e.validtime == 0 && b.entries[0].recvtime == 21000 && b.entries[0].validtime == 10000
    ensures r == null && r == b.Fetched(e.Named(), 32000)
  {
    hide Bucket.Valid, Bucket.Living, Bucket.Matching, Linked, NewestFirst, Walks.Scan;
    b, e := TwoEntries(cfg, filtertime, strictprov);
    b.RingOfEntries();
    var key := Key(e.tag, e.sid, e.caid, e.hash, e.provid);
    r := b.Fetch(key, 32000);
    Walks.ScanIs(b.Living(b.entries, 32000), b.Matching(b.entries, key), 0);
  }

  method TwoEntries(cfg: Config, filtertime: nat, strictprov: bool) returns (b: Bucket, e: Entry)
    ensures fresh(b) && fresh(b.entries) && b.Valid() && |b.entries| == 2 && b.entries[1] == e && b.alivetime == 45000
    ensures e.recvtime == 1000 && e.validtime == 0
    ensures b.entries[0].recvtime == 21000 && b.entries[0].validtime == 10000
  {
    hide *;
    b := new Bucket(cfg, 45000, filtertime, strictprov);
    e := b.New(Key(1, 7, 0x0100, 11, 0), 0, 1000);
    var m := b.New(Key(1, 7, 0x0100, 12, 0), 10000, 21000);
  }
}
