/** Exactly which messages of a history are floods, which are repeats, and how long a flood mutes. A message
    is heard when its user is not muted at its time. All times are milliseconds. */
module ModerationRuns {
  import opened Basics
  import opened Moderation

  function Before(cfg: Config, ms: seq<Message>, n: nat): Keys
    requires cfg.Valid() && n <= |ms|
  {
    After(cfg, NO_KEYS, ms[..n])
  }

  predicate IsHeard(cfg: Config, ms: seq<Message>, n: nat)
    requires cfg.Valid() && n < |ms|
  {
    !Muted(Before(cfg, ms, n), ms[n].ms)
  }

  /** Which messages of the history are heard. */
  function Heard(cfg: Config, ms: seq<Message>): (heard: seq<bool>)
    requires cfg.Valid()
    ensures |heard| == |ms|
  {
    seq(|ms|, n requires 0 <= n < |ms| => IsHeard(cfg, ms, n))
  }

  lemma BeforeNext(cfg: Config, ms: seq<Message>, n: nat)
    requires cfg.Valid() && n < |ms|
    ensures Before(cfg, ms, n + 1) ==
              if Heard(cfg, ms)[n] then Counted(cfg, Before(cfg, ms, n), ms[n]) else Before(cfg, ms, n)
  {
    assert ms[..n + 1][..n] == ms[..n];
  }

  // ---------- floods ----------

  function Window(m: Message, window: int): int
    requires window >= 1
  {
    m.ms / 1000 / window
  }

  /** The heard messages of one window among the first n. */
  function HeardIn(ms: seq<Message>, heard: seq<bool>, n: nat, window: int, w: int): nat
    requires n <= |ms| == |heard| && window >= 1
    decreases n
  {
    if n == 0 then 0
    else HeardIn(ms, heard, n - 1, window, w) + if heard[n - 1] && Window(ms[n - 1], window) == w then 1 else 0
  }

  /** The counter of a window knows how many of its messages were heard, and outlives it. */
  predicate CountsWindow(rate: map<int, Counter>, w: int, count: nat, end: int) {
    && (w in rate <==> count > 0)
    && (w in rate ==> rate[w].count == count && rate[w].deadline > end)
  }

  lemma OneMoreHeard(cfg: Config, k: Keys, m: Message, w: int, count: nat, end: int)
    requires cfg.Valid() && CountsWindow(k.rate, w, count, end) && end == (w + 1) * cfg.window * 1000
    ensures CountsWindow(Counted(cfg, k, m).rate, w, count + (if Window(m, cfg.window) == w then 1 else 0), end)
  {
    OutlivesWindow(cfg, m);
  }

  lemma NextWindowCount(cfg: Config, ms: seq<Message>, heard: seq<bool>, n: nat, k: Keys, k': Keys, w: int, end: int)
    requires cfg.Valid() && n < |ms| == |heard| && end == (w + 1) * cfg.window * 1000
    requires CountsWindow(k.rate, w, HeardIn(ms, heard, n, cfg.window, w), end)
    requires k' == if heard[n] then Counted(cfg, k, ms[n]) else k
    ensures CountsWindow(k'.rate, w, HeardIn(ms, heard, n + 1, cfg.window, w), end)
  {
    if heard[n] { OneMoreHeard(cfg, k, ms[n], w, HeardIn(ms, heard, n, cfg.window, w), end); }
  }

  lemma {:induction false} WindowCounterIsExact(cfg: Config, ms: seq<Message>, heard: seq<bool>, n: nat, w: int,
      end: int)
    requires cfg.Valid() && n <= |ms| && heard == Heard(cfg, ms) && end == (w + 1) * cfg.window * 1000
    ensures CountsWindow(Before(cfg, ms, n).rate, w, HeardIn(ms, heard, n, cfg.window, w), end)
    decreases n
  {
    if n == 0 {
      assert ms[..0] == [];
    } else {
      var i: nat := n - 1;
      var k, k' := Before(cfg, ms, i), Before(cfg, ms, i + 1);
      WindowCounterIsExact(cfg, ms, heard, i, w, end);
      BeforeNext(cfg, ms, i);
      NextWindowCount(cfg, ms, heard, i, k, k', w, end);
    }
  }

  lemma FloodsByCount(cfg: Config, k: Keys, m: Message, count: nat, end: int)
    requires cfg.Valid() && CountsWindow(k.rate, WindowOf(cfg, m), count, end) && m.ms < end
    ensures Flooded(cfg, k, m) <==> count + 1 > cfg.maxMessages
  {}

  /** The message is more than maxMessages-th heard one of its window. */
  predicate Overflows(cfg: Config, ms: seq<Message>, heard: seq<bool>, n: nat)
    requires cfg.Valid() && n < |ms| == |heard|
  {
    HeardIn(ms, heard, n, cfg.window, Window(ms[n], cfg.window)) + 1 > cfg.maxMessages
  }

  /** A heard message is a flood exactly when more than maxMessages of its window, itself included, were
      heard by then. */
  lemma FloodedExactlyWhen(cfg: Config, ms: seq<Message>, n: nat)
    requires cfg.Valid() && n < |ms|
    ensures Flooded(cfg, Before(cfg, ms, n), ms[n]) <==> Overflows(cfg, ms, Heard(cfg, ms), n)
  {
    var w, heard := Window(ms[n], cfg.window), Heard(cfg, ms);
    var end := (w + 1) * cfg.window * 1000;
    WindowCounterIsExact(cfg, ms, heard, n, w, end);
    OutlivesWindow(cfg, ms[n]);
    FloodsByCount(cfg, Before(cfg, ms, n), ms[n], HeardIn(ms, heard, n, cfg.window, w), end);
  }

  // ---------- mutes ----------

  lemma FloodSetsMute(cfg: Config, k: Keys, m: Message, time: int)
    requires cfg.Valid() && cfg.mute > 0 && Flooded(cfg, k, m)
    ensures Muted(Counted(cfg, k, m), time) <==> time + 500 <= m.ms + cfg.mute * 1000
  {}

  lemma MutedIsBlocked(cfg: Config, k: Keys, m: Message)
    requires cfg.Valid() && Muted(k, m.ms)
    ensures Judge(cfg, k, m) == (k, Block)
  {}

  lemma NotHeardMeansMuted(cfg: Config, ms: seq<Message>, n: nat)
    requires cfg.Valid() && n < |ms|
    ensures Heard(cfg, ms)[n] <==> !Muted(Before(cfg, ms, n), ms[n].ms)
  {}

  /** While it lasts nothing is counted. */
  lemma {:induction false} MuteLasts(cfg: Config, ms: seq<Message>, k: Keys, n: nat, i: nat)
    requires cfg.Valid() && n < i < |ms| && k == Before(cfg, ms, n + 1)
    requires forall j :: n < j < i ==> Muted(k, ms[j].ms)
    ensures Before(cfg, ms, i) == k
    decreases i
  {
    if i > n + 1 {
      var j: nat := i - 1;
      MuteLasts(cfg, ms, k, n, j);
      NotHeardMeansMuted(cfg, ms, j);
      BeforeNext(cfg, ms, j);
    }
  }

  /** A flood mutes its user for `mute` seconds, rounded to whole seconds left: all messages of that time are
      blocked without being counted, and the first one after it is heard again. */
  lemma FloodMutes(cfg: Config, ms: seq<Message>, n: nat, i: nat)
    requires cfg.Valid() && cfg.mute > 0 && n < i < |ms|
    requires Heard(cfg, ms)[n] && Overflows(cfg, ms, Heard(cfg, ms), n)
    requires forall j :: n < j < i ==> ms[j].ms + 500 <= ms[n].ms + cfg.mute * 1000
    ensures Heard(cfg, ms)[i] <==> ms[i].ms + 500 > ms[n].ms + cfg.mute * 1000
    ensures !Heard(cfg, ms)[i] ==> Judge(cfg, Before(cfg, ms, i), ms[i]) == (Before(cfg, ms, i), Block)
  {
    var k := Before(cfg, ms, n + 1);
    MutedAfterFlood(cfg, ms, n, k);
    MuteLasts(cfg, ms, k, n, i);
    NotHeardMeansMuted(cfg, ms, i);
    if Muted(k, ms[i].ms) { MutedIsBlocked(cfg, k, ms[i]); }
  }

  lemma MutedAfterFlood(cfg: Config, ms: seq<Message>, n: nat, k: Keys)
    requires cfg.Valid() && cfg.mute > 0 && n < |ms| && k == Before(cfg, ms, n + 1)
    requires Heard(cfg, ms)[n] && Overflows(cfg, ms, Heard(cfg, ms), n)
    ensures forall time :: Muted(k, time) <==> time + 500 <= ms[n].ms + cfg.mute * 1000
  {
    FloodedExactlyWhen(cfg, ms, n);
    BeforeNext(cfg, ms, n);
    forall time ensures Muted(k, time) <==> time + 500 <= ms[n].ms + cfg.mute * 1000 {
      FloodSetsMute(cfg, Before(cfg, ms, n), ms[n], time);
    }
  }

  // ---------- repeats ----------

  ghost predicate InOrder(ms: seq<Message>) { forall i, j :: 0 <= i < j < |ms| ==> ms[i].ms <= ms[j].ms }

  predicate Says(ms: seq<Message>, heard: seq<bool>, i: nat, text: string)
    requires |ms| == |heard|
  {
    i < |ms| && ms[i].content == text && heard[i]
  }

  /** Less than two minutes apart. */
  predicate Near(ms: seq<Message>, j: nat, i: nat) { j < i < |ms| && ms[i].ms - ms[j].ms < 120_000 }

  /** Message i ends q heard messages of this text, each less than two minutes after the one before. */
  ghost predicate Chain(ms: seq<Message>, heard: seq<bool>, text: string, i: nat, q: nat)
    requires |ms| == |heard|
    decreases q
  {
    && Says(ms, heard, i, text)
    && (q <= 1 || exists j: nat :: Near(ms, j, i) && Chain(ms, heard, text, j, q - 1))
  }

  lemma {:induction false} ShorterChain(ms: seq<Message>, heard: seq<bool>, text: string, i: nat, q: nat)
    requires |ms| == |heard| && q >= 1 && Chain(ms, heard, text, i, q + 1)
    ensures Chain(ms, heard, text, i, q)
    decreases q
  {
    if q > 1 {
      var j: nat :| Near(ms, j, i) && Chain(ms, heard, text, j, q);
      ShorterChain(ms, heard, text, j, q - 1);
    }
  }

  /** The last message of this text heard among the first n. */
  function LastSaying(ms: seq<Message>, heard: seq<bool>, n: nat, text: string): (r: Option<nat>)
    requires n <= |ms| == |heard|
    ensures r.Some? ==> r.value < n && Says(ms, heard, r.value, text)
    ensures forall i: nat :: i < n && Says(ms, heard, i, text) ==> r.Some? && i <= r.value
    decreases n
  {
    if n == 0 then None else if Says(ms, heard, n - 1, text) then Some(n - 1) else LastSaying(ms, heard, n - 1, text)
  }

  lemma NearBetween(ms: seq<Message>, j: nat, l: nat, n: nat)
    requires InOrder(ms) && j < l < n && Near(ms, j, n)
    ensures Near(ms, j, l) && Near(ms, l, n)
  {
    assert ms[j].ms <= ms[l].ms <= ms[n].ms;
  }

  lemma LongerChain(ms: seq<Message>, heard: seq<bool>, text: string, j: nat, i: nat, q: nat)
    requires |ms| == |heard| && q >= 1 && Says(ms, heard, i, text) && Near(ms, j, i) && Chain(ms, heard, text, j, q)
    ensures Chain(ms, heard, text, i, q + 1)
  {}

  /** A chain that ends near enough can be continued from the last message of the text. */
  lemma ChainFromLast(ms: seq<Message>, heard: seq<bool>, text: string, n: nat, j: nat, q: nat)
    requires |ms| == |heard| && InOrder(ms) && q >= 1 && Near(ms, j, n) && Chain(ms, heard, text, j, q)
    ensures var r := LastSaying(ms, heard, n, text);
            r.Some? && Near(ms, r.value, n) && Chain(ms, heard, text, r.value, q)
  {
    assert Says(ms, heard, j, text);
    var l := LastSaying(ms, heard, n, text).value;
    if j < l {
      NearBetween(ms, j, l, n);
      LongerChain(ms, heard, text, j, l, q);
      ShorterChain(ms, heard, text, l, q);
    }
  }

  ghost predicate CountsChain(ms: seq<Message>, heard: seq<bool>, text: string, i: nat, count: int, q: nat)
    requires |ms| == |heard|
  {
    count >= q <==> Chain(ms, heard, text, i, q)
  }

  ghost predicate CountsChains(ms: seq<Message>, heard: seq<bool>, text: string, i: nat, count: int)
    requires |ms| == |heard|
  {
    count >= 1 && forall q: nat :: q >= 1 ==> CountsChain(ms, heard, text, i, count, q)
  }

  lemma FirstCount(ms: seq<Message>, heard: seq<bool>, text: string, n: nat, q: nat)
    requires |ms| == |heard| && InOrder(ms) && Says(ms, heard, n, text) && q >= 1
    requires var r := LastSaying(ms, heard, n, text); !(r.Some? && Near(ms, r.value, n))
    ensures CountsChain(ms, heard, text, n, 1, q)
  {
    if q > 1 && Chain(ms, heard, text, n, q) {
      var p := q - 1;
      var j: nat :| Near(ms, j, n) && Chain(ms, heard, text, j, p);
      ChainFromLast(ms, heard, text, n, j, p);
    }
  }

  lemma LaterCount(ms: seq<Message>, heard: seq<bool>, text: string, n: nat, l: nat, count: int, q: nat)
    requires |ms| == |heard| && InOrder(ms) && Says(ms, heard, n, text) && q >= 1 && count >= 1
    requires LastSaying(ms, heard, n, text) == Some(l) && Near(ms, l, n)
    requires q > 1 ==> CountsChain(ms, heard, text, l, count, q - 1)
    ensures CountsChain(ms, heard, text, n, count + 1, q)
  {
    if q > 1 {
      var p := q - 1;
      if Chain(ms, heard, text, n, q) {
        var j: nat :| Near(ms, j, n) && Chain(ms, heard, text, j, p);
        ChainFromLast(ms, heard, text, n, j, p);
      }
      if Chain(ms, heard, text, l, p) { LongerChain(ms, heard, text, l, n, p); }
    }
  }

  /** The repeat counter of a text counts the chain that its last message ends, for two minutes. */
  ghost predicate CounterRight(ms: seq<Message>, heard: seq<bool>, text: string, r: Option<nat>,
      repeats: map<string, Counter>)
    requires |ms| == |heard|
  {
    && (text in repeats <==> r.Some?)
    && (r.Some? ==> r.value < |ms| && repeats[text].deadline == ms[r.value].ms + 120_000
                    && CountsChains(ms, heard, text, r.value, repeats[text].count))
  }

  lemma IncrementCounts(ms: seq<Message>, heard: seq<bool>, text: string, n: nat, repeats: map<string, Counter>)
    requires n < |ms| == |heard| && InOrder(ms) && Says(ms, heard, n, text)
    requires CounterRight(ms, heard, text, LastSaying(ms, heard, n, text), repeats)
    ensures CountsChains(ms, heard, text, n, IncrementedText(repeats, text, ms[n].ms))
  {
    var r, count := LastSaying(ms, heard, n, text), IncrementedText(repeats, text, ms[n].ms);
    forall q: nat | q >= 1 ensures CountsChain(ms, heard, text, n, count, q) {
      if r.Some? && Near(ms, r.value, n) {
        var p: int := q - 1;
        assert q > 1 ==> CountsChain(ms, heard, text, r.value, count - 1, p);
        LaterCount(ms, heard, text, n, r.value, count - 1, q);
      } else {
        FirstCount(ms, heard, text, n, q);
      }
    }
  }

  lemma NextRepeatCount(cfg: Config, ms: seq<Message>, heard: seq<bool>, text: string, n: nat, k: Keys, k': Keys)
    requires cfg.Valid() && n < |ms| == |heard| && InOrder(ms) && text != ""
    requires CounterRight(ms, heard, text, LastSaying(ms, heard, n, text), k.repeats)
    requires k' == if heard[n] then Counted(cfg, k, ms[n]) else k
    ensures CounterRight(ms, heard, text, LastSaying(ms, heard, n + 1, text), k'.repeats)
  {
    if Says(ms, heard, n, text) { IncrementCounts(ms, heard, text, n, k.repeats); }
  }

  lemma {:induction false} RepeatCounterIsExact(cfg: Config, ms: seq<Message>, heard: seq<bool>, text: string, n: nat)
    requires cfg.Valid() && InOrder(ms) && text != "" && n <= |ms| && heard == Heard(cfg, ms)
    ensures CounterRight(ms, heard, text, LastSaying(ms, heard, n, text), Before(cfg, ms, n).repeats)
    decreases n
  {
    if n > 0 {
      RepeatCounterIsExact(cfg, ms, heard, text, n - 1);
      BeforeNext(cfg, ms, n - 1);
      NextRepeatCount(cfg, ms, heard, text, n - 1, Before(cfg, ms, n - 1), Before(cfg, ms, n));
    }
  }

  /** Three heard messages of this text lead up to message n, all less than two minutes apart. */
  ghost predicate FollowsThree(ms: seq<Message>, heard: seq<bool>, text: string, n: nat)
    requires |ms| == |heard|
  {
    exists j: nat :: Near(ms, j, n) && Chain(ms, heard, text, j, 3)
  }

  lemma RepeatsByChain(ms: seq<Message>, heard: seq<bool>, text: string, n: nat, repeats: map<string, Counter>)
    requires n < |ms| == |heard| && InOrder(ms)
    requires CounterRight(ms, heard, text, LastSaying(ms, heard, n, text), repeats)
    ensures IncrementedText(repeats, text, ms[n].ms) >= 4 <==> FollowsThree(ms, heard, text, n)
  {
    var r := LastSaying(ms, heard, n, text);
    if r.Some? { assert CountsChain(ms, heard, text, r.value, repeats[text].count, 3); }
    if j: nat :| Near(ms, j, n) && Chain(ms, heard, text, j, 3) { ChainFromLast(ms, heard, text, n, j, 3); }
  }

  /** In a history in time order a message with text is a repeat exactly when it follows, by less than two
      minutes, three heard messages of the same text each less than two minutes after the one before. */
  lemma RepeatedExactlyWhen(cfg: Config, ms: seq<Message>, n: nat)
    requires cfg.Valid() && InOrder(ms) && n < |ms|
    ensures Repeated(Before(cfg, ms, n), ms[n]) <==>
              ms[n].content != "" && FollowsThree(ms, Heard(cfg, ms), ms[n].content, n)
  {
    var text, heard := ms[n].content, Heard(cfg, ms);
    if text != "" {
      RepeatCounterIsExact(cfg, ms, heard, text, n);
      RepeatsByChain(ms, heard, text, n, Before(cfg, ms, n).repeats);
    }
  }
}
