/** Message moderation: the flood window, the repeat counter, the signal chain and the rules. */
module Moderation {
  import opened Basics

  datatype Config = Config(window: int, maxMessages: int, mute: int, warnScore: int, blockScore: int) {
    /** The window length divides the clock. */
    predicate Valid() { window >= 1 }
  }

  datatype Rule = Rule(name: string, score: int, enabled: bool, compiles: bool, matches: bool)

  /** One message of one user: its time in milliseconds, its trimmed and folded content, the patterns
      it matches and the rules stored at that time. */
  datatype Message = Message(ms: nat, content: string, scam: bool, toxic: bool, url: bool, rules: seq<Rule>) {
    function Second(): nat { ms / 1000 }
  }

  datatype Action = Allow | Warn | Block

  datatype Decision = Decision(score: int, reason: string, action: Action)

  /** A counter key with the time it expires. */
  datatype Counter = Counter(count: int, deadline: int)

  /** The Redis keys of one user; muteUntil is None while no mute key with a lifetime is set. */
  datatype Keys = Keys(muteUntil: Option<int>, rate: map<int, Counter>, repeats: map<string, Counter>)

  const NO_KEYS := Keys(None, map[], map[])

  /** INCR of a key that may have expired. */
  function Incremented(keys: map<int, Counter>, k: int, ms: int): int {
    if k in keys && ms < keys[k].deadline then keys[k].count + 1 else 1
  }

  function IncrementedText(keys: map<string, Counter>, k: string, ms: int): int {
    if k in keys && ms < keys[k].deadline then keys[k].count + 1 else 1
  }

  /** TTL answers in seconds, rounded to the nearest. */
  predicate Muted(k: Keys, ms: int) { k.muteUntil.Some? && (k.muteUntil.value - ms + 500) / 1000 > 0 }

  function WindowOf(cfg: Config, m: Message): int
    requires cfg.Valid()
  {
    m.Second() / cfg.window
  }

  predicate Flooded(cfg: Config, k: Keys, m: Message)
    requires cfg.Valid()
  {
    Incremented(k.rate, WindowOf(cfg, m), m.ms) > cfg.maxMessages
  }

  predicate Repeated(k: Keys, m: Message) { m.content != "" && IncrementedText(k.repeats, m.content, m.ms) >= 4 }

  /** The keys after a message of a user who is not muted. */
  function Counted(cfg: Config, k: Keys, m: Message): Keys
    requires cfg.Valid()
  {
    Keys(if Flooded(cfg, k, m) then (if cfg.mute > 0 then Some(m.ms + cfg.mute * 1000) else None) else k.muteUntil,
         k.rate[WindowOf(cfg, m) := Counter(Incremented(k.rate, WindowOf(cfg, m), m.ms),
             m.ms + (cfg.window + 2) * 1000)],
         if m.content == "" then k.repeats
         else k.repeats[m.content := Counter(IncrementedText(k.repeats, m.content, m.ms), m.ms + 120000)])
  }

  // ---------- the score as a maximum ----------

  /** Something that raises the score, and what it is called. */
  datatype Trigger = Trigger(score: int, reason: string)

  const FLOOD := Trigger(90, "message flood detected")
  const SCAM := Trigger(85, "possible scam")
  const REPEAT := Trigger(75, "repeated spam")
  const TOXIC := Trigger(60, "possible harassment")
  const LINK := Trigger(45, "external link")

  function If(b: bool, t: Trigger): seq<Trigger> { if b then [t] else [] }

  /** The signals that fired. */
  function Signals(flooded: bool, repeated: bool, m: Message): seq<Trigger> {
    If(flooded, FLOOD) + If(repeated, REPEAT) + If(m.scam, SCAM) + If(m.toxic, TOXIC) + If(m.url, LINK)
  }

  predicate Fires(r: Rule) { r.enabled && r.compiles && r.matches }

  function Fired(rules: seq<Rule>): seq<Trigger> {
    if rules == [] then []
    else Fired(rules[..|rules| - 1])
         + If(Fires(rules[|rules| - 1]), Trigger(rules[|rules| - 1].score, rules[|rules| - 1].name))
  }

  function Triggers(flooded: bool, repeated: bool, m: Message): seq<Trigger> {
    Signals(flooded, repeated, m) + Fired(m.rules)
  }

  /** The highest score, or 0. */
  function Top(triggers: seq<Trigger>): int {
    if triggers == [] then 0
    else
      var rest := Top(triggers[..|triggers| - 1]);
      if triggers[|triggers| - 1].score > rest then triggers[|triggers| - 1].score else rest
  }

  lemma {:induction false} TopIsMaximum(triggers: seq<Trigger>)
    ensures Top(triggers) >= 0 && forall t :: t in triggers ==> t.score <= Top(triggers)
    ensures Top(triggers) == 0 || exists t :: t in triggers && t.score == Top(triggers)
  {
    if triggers != [] {
      var init, last := triggers[..|triggers| - 1], triggers[|triggers| - 1];
      TopIsMaximum(init);
      assert triggers == init + [last];
      if Top(triggers) != 0 && Top(triggers) == Top(init) {
        var t :| t in init && t.score == Top(init);
        assert t in triggers;
      }
    }
  }

  /** More triggers, in whatever order, never lower the score. */
  lemma TopGrows(a: seq<Trigger>, b: seq<Trigger>)
    requires forall t :: t in a ==> t in b
    ensures Top(a) <= Top(b)
  {
    TopIsMaximum(a);
    TopIsMaximum(b);
  }

  function ActionFor(cfg: Config, score: int): Action {
    if score >= cfg.blockScore then Block else if score >= cfg.warnScore then Warn else Allow
  }

  predicate AtLeastAsStrict(a: Action, b: Action) { a == Block || b == Allow || a == b }

  predicate FiresAs(r: Rule, t: Trigger) { Fires(r) && t == Trigger(r.score, r.name) }

  lemma {:induction false} FiredAre(rules: seq<Rule>, t: Trigger)
    ensures t in Fired(rules) <==> exists r :: r in rules && FiresAs(r, t)
  {
    if rules != [] {
      var init, last := rules[..|rules| - 1], rules[|rules| - 1];
      FiredAre(init, t);
      assert rules == init + [last];
      assert t in Fired(rules) <==> t in Fired(init) || FiresAs(last, t);
    }
  }

  /** Rules are taken in table order, yet neither their order nor duplicates matter, and more rules
      never weaken the action. */
  lemma MoreRulesNeverWeaken(cfg: Config, flooded: bool, repeated: bool, m: Message, n: Message)
    requires n == m.(rules := n.rules) && forall r :: r in m.rules ==> r in n.rules
    ensures Top(Triggers(flooded, repeated, m)) <= Top(Triggers(flooded, repeated, n))
    ensures AtLeastAsStrict(ActionFor(cfg, Top(Triggers(flooded, repeated, n))),
            ActionFor(cfg, Top(Triggers(flooded, repeated, m))))
    ensures (forall r :: r in n.rules ==> r in m.rules)
            ==> Top(Triggers(flooded, repeated, m)) == Top(Triggers(flooded, repeated, n))
  {
    FiredGrow(m.rules, n.rules);
    TopGrows(Triggers(flooded, repeated, m), Triggers(flooded, repeated, n));
    if forall r :: r in n.rules ==> r in m.rules {
      FiredGrow(n.rules, m.rules);
      TopGrows(Triggers(flooded, repeated, n), Triggers(flooded, repeated, m));
    }
  }

  lemma FiredGrow(a: seq<Rule>, b: seq<Rule>)
    requires forall r :: r in a ==> r in b
    ensures forall t :: t in Fired(a) ==> t in Fired(b)
  {
    forall t | t in Fired(a) ensures t in Fired(b) {
      FiredAre(a, t);
      FiredAre(b, t);
      var i :| 0 <= i < |a| && Fires(a[i]) && t == Trigger(a[i].score, a[i].name);
      assert a[i] in a && a[i] in b;
      var j :| 0 <= j < |b| && b[j] == a[i];
    }
  }

  // ---------- one user's messages over time ----------

  function Judge(cfg: Config, k: Keys, m: Message): (Keys, Action)
    requires cfg.Valid()
  {
    if Muted(k, m.ms) then (k, Block)
    else (Counted(cfg, k, m), ActionFor(cfg, Top(Triggers(Flooded(cfg, k, m), Repeated(k, m), m))))
  }

  function After(cfg: Config, k: Keys, ms: seq<Message>): Keys
    requires cfg.Valid()
    decreases |ms|
  {
    if ms == [] then k else Judge(cfg, After(cfg, k, ms[..|ms| - 1]), ms[|ms| - 1]).0
  }

  /** The messages of windows from..to that were not blocked. */
  function Escaped(cfg: Config, k: Keys, ms: seq<Message>, from: int, to: int): int
    requires cfg.Valid()
    decreases |ms|
  {
    if ms == [] then 0
    else Escaped(cfg, k, ms[..|ms| - 1], from, to) +
         (if from <= WindowOf(cfg, ms[|ms| - 1]) <= to
             && Judge(cfg, After(cfg, k, ms[..|ms| - 1]), ms[|ms| - 1]).1 != Block then 1 else 0)
  }

  function Max0(n: int): int { if n < 0 then 0 else n }

  /** The counter of a window knows every message of it that escaped, and lives as long as the window. */
  ghost predicate Tracks(cfg: Config, ms: seq<Message>, w: int)
    requires cfg.Valid()
  {
    var k := After(cfg, NO_KEYS, ms);
    var n := Escaped(cfg, NO_KEYS, ms, w, w);
    && 0 <= n <= Max0(cfg.maxMessages)
    && (n > 0 ==> w in k.rate && k.rate[w].count >= n && k.rate[w].deadline > (w + 1) * cfg.window * 1000)
    && (w in k.rate ==> k.rate[w].deadline > (w + 1) * cfg.window * 1000 && k.rate[w].count >= n)
  }

  /** A key written in its window outlives it. */
  lemma OutlivesWindow(cfg: Config, m: Message)
    requires cfg.Valid()
    ensures var w := WindowOf(cfg, m);
            w * cfg.window * 1000 <= m.ms < (w + 1) * cfg.window * 1000 < m.ms + (cfg.window + 2) * 1000
  {
    var w, second := WindowOf(cfg, m), m.Second();
    assert w * cfg.window <= second < w * cfg.window + cfg.window;
    assert (w + 1) * cfg.window == w * cfg.window + cfg.window;
  }

  lemma FloodBlocks(cfg: Config, k: Keys, m: Message)
    requires cfg.Valid() && cfg.blockScore <= 90 && Flooded(cfg, k, m)
    ensures Judge(cfg, k, m).1 == Block
  {
    var triggers := Triggers(Flooded(cfg, k, m), Repeated(k, m), m);
    assert triggers[0] == FLOOD;
    TopIsMaximum(triggers);
  }

  lemma {:induction false} WindowsTrack(cfg: Config, ms: seq<Message>, w: int)
    requires cfg.Valid() && cfg.blockScore <= 90
    ensures Tracks(cfg, ms, w)
    decreases |ms|
  {
    if ms != [] {
      var init, m := ms[..|ms| - 1], ms[|ms| - 1];
      WindowsTrack(cfg, init, w);
      var k := After(cfg, NO_KEYS, init);
      if !Muted(k, m.ms) && WindowOf(cfg, m) == w {
        OutlivesWindow(cfg, m);
        if Flooded(cfg, k, m) { FloodBlocks(cfg, k, m); }
      }
    }
  }

  /** The bound over n windows from the first on. */
  lemma {:induction false} WindowsAddUp(cfg: Config, ms: seq<Message>, from: int, n: nat)
    requires cfg.Valid() && cfg.blockScore <= 90
    ensures Escaped(cfg, NO_KEYS, ms, from, from + n - 1) <= n * Max0(cfg.maxMessages)
    decreases n
  {
    if n == 0 {
      NoWindows(cfg, ms, from, from - 1);
    } else {
      var to := from + n - 1;
      WindowsAddUp(cfg, ms, from, n - 1);
      assert Escaped(cfg, NO_KEYS, ms, to, to) <= Max0(cfg.maxMessages) by { WindowsTrack(cfg, ms, to); }
      SplitWindows(cfg, ms, from, to);
      OneMore(n - 1, Max0(cfg.maxMessages));
    }
  }

  lemma OneMore(n: nat, max: nat)
    ensures n * max + max == (n + 1) * max
  {}

  lemma {:induction false} NoWindows(cfg: Config, ms: seq<Message>, from: int, to: int)
    requires cfg.Valid() && from > to
    ensures Escaped(cfg, NO_KEYS, ms, from, to) == 0
    decreases |ms|
  {
    if ms != [] { NoWindows(cfg, ms[..|ms| - 1], from, to); }
  }

  lemma {:induction false} SplitWindows(cfg: Config, ms: seq<Message>, from: int, to: int)
    requires cfg.Valid() && from <= to
    ensures Escaped(cfg, NO_KEYS, ms, from, to) ==
            Escaped(cfg, NO_KEYS, ms, from, to - 1) + Escaped(cfg, NO_KEYS, ms, to, to)
    decreases |ms|
  {
    if ms != [] { SplitWindows(cfg, ms[..|ms| - 1], from, to); }
  }

  // ---------- any interval ----------

  /** The messages of the seconds [start, start + length) that were not blocked. */
  function EscapedIn(cfg: Config, k: Keys, ms: seq<Message>, start: int, length: int): int
    requires cfg.Valid()
    decreases |ms|
  {
    if ms == [] then 0
    else EscapedIn(cfg, k, ms[..|ms| - 1], start, length) +
         (if start <= ms[|ms| - 1].ms / 1000 < start + length
             && Judge(cfg, After(cfg, k, ms[..|ms| - 1]), ms[|ms| - 1]).1 != Block then 1 else 0)
  }

  function CeilDiv(a: int, b: int): int
    requires b >= 1
  {
    (a + b - 1) / b
  }

  lemma Quotient(a: int, w: int)
    requires w >= 1
    ensures (a / w) * w <= a < (a / w) * w + w
  {}

  lemma QuotientGrows(a: int, b: int, w: int)
    requires w >= 1 && a <= b
    ensures a / w <= b / w
  {
    Quotient(a, w);
    Quotient(b, w);
    if a / w > b / w { Products(b / w + 1, a / w, w); }
  }

  lemma Products(a: int, b: int, w: int)
    requires w >= 0 && a <= b
    ensures a * w <= b * w
  {}

  /** An interval of `length` seconds meets at most ceil(length / window) + 1 windows. */
  lemma WindowsMet(start: int, length: int, w: int)
    requires w >= 1 && length >= 1
    ensures start / w <= (start + length - 1) / w <= start / w + CeilDiv(length, w)
  {
    var a, c := start / w, CeilDiv(length, w);
    Quotient(start, w);
    Quotient(length + w - 1, w);
    Quotient(start + length - 1, w);
    QuotientGrows(start, start + length - 1, w);
    assert (a + c + 1) * w == a * w + c * w + w;
    if (start + length - 1) / w >= a + c + 1 { Products(a + c + 1, (start + length - 1) / w, w); }
  }

  lemma SecondInWindows(start: int, length: int, second: int, w: int)
    requires w >= 1
    ensures start <= second < start + length ==> start / w <= second / w <= (start + length - 1) / w
  {
    if start <= second < start + length {
      QuotientGrows(start, second, w);
      QuotientGrows(second, start + length - 1, w);
    }
  }

  lemma {:induction false} IntervalInWindows(cfg: Config, ms: seq<Message>, start: int, length: int)
    requires cfg.Valid() && length >= 1
    ensures EscapedIn(cfg, NO_KEYS, ms, start, length) <= Escaped(cfg, NO_KEYS, ms, start / cfg.window,
            (start + length - 1) / cfg.window)
    decreases |ms|
  {
    if ms != [] {
      IntervalInWindows(cfg, ms[..|ms| - 1], start, length);
      var m := ms[|ms| - 1];
      SecondInWindows(start, length, m.Second(), cfg.window);
    }
  }

  /** With a block score of at most 90 and working counters, any interval of `length` seconds lets at
      most maxMessages * (ceil(length / window) + 1) of a user's messages through. */
  lemma FloodsAreBounded(cfg: Config, ms: seq<Message>, start: int, length: int)
    requires cfg.Valid() && cfg.blockScore <= 90 && cfg.maxMessages >= 0 && length >= 1
    ensures EscapedIn(cfg, NO_KEYS, ms, start, length) <= cfg.maxMessages * (CeilDiv(length, cfg.window) + 1)
  {
    var first, last := start / cfg.window, (start + length - 1) / cfg.window;
    IntervalInWindows(cfg, ms, start, length);
    WindowsMet(start, length, cfg.window);
    var met := last - first + 1;
    assert first + met - 1 == last;
    WindowsAddUp(cfg, ms, first, met);
    Combine(EscapedIn(cfg, NO_KEYS, ms, start, length), met, CeilDiv(length, cfg.window) + 1, cfg.maxMessages);
  }

  lemma Combine(escaped: int, met: int, bound: int, max: nat)
    requires escaped <= met * max && met <= bound
    ensures escaped <= max * bound
  {}

  // ---------- when the window bound holds ----------

  const PLAIN := Message(0, "", false, false, false, [])

  function Plain(n: nat): seq<Message> { seq(n, _ => PLAIN) }

  /** The keys after n >= 0 plain messages at one instant, the n-th at most tripping the flood check. */
  ghost predicate PlainKeys(cfg: Config, k: Keys, n: nat) {
    && (n <= cfg.maxMessages ==> k.muteUntil == None)
    && (n == 0 ==> k == NO_KEYS)
    && (n > 0 ==> 0 in k.rate && k.rate[0] == Counter(n, (cfg.window + 2) * 1000))
  }

  lemma PlainTriggers(cfg: Config, k: Keys)
    requires cfg.Valid() && cfg.blockScore > 90
    ensures Top(Triggers(Flooded(cfg, k, PLAIN), Repeated(k, PLAIN), PLAIN)) <= 90
  {
    var triggers := Triggers(Flooded(cfg, k, PLAIN), Repeated(k, PLAIN), PLAIN);
    assert triggers == If(Flooded(cfg, k, PLAIN), FLOOD);
    TopIsMaximum(triggers);
  }

  /** One more plain message escapes and is counted. */
  lemma PlainMessageEscapes(cfg: Config, k: Keys, n: nat)
    requires cfg.Valid() && cfg.blockScore > 90 && n <= cfg.maxMessages && PlainKeys(cfg, k, n)
    ensures WindowOf(cfg, PLAIN) == 0
    ensures Judge(cfg, k, PLAIN).1 != Block && PlainKeys(cfg, Judge(cfg, k, PLAIN).0, n + 1)
  {
    assert WindowOf(cfg, PLAIN) == 0;
    assert Incremented(k.rate, 0, 0) == n + 1;
    PlainTriggers(cfg, k);
  }

  /** Plain messages at one instant: all of them escape a block score above 90, up to and including
      the one that trips the flood check. */
  lemma {:induction false} PlainMessagesEscape(cfg: Config, n: nat)
    requires cfg.Valid() && cfg.blockScore > 90 && n <= cfg.maxMessages + 1
    ensures Escaped(cfg, NO_KEYS, Plain(n), 0, 0) == n
    ensures PlainKeys(cfg, After(cfg, NO_KEYS, Plain(n)), n)
  {
    if n > 0 {
      assert Plain(n)[..n - 1] == Plain(n - 1);
      PlainMessagesEscape(cfg, n - 1);
      PlainMessageEscapes(cfg, After(cfg, NO_KEYS, Plain(n - 1)), n - 1);
    }
  }

  /** At most maxMessages of a user's messages per window escape, in every history, exactly when the
      block score is at most 90. */
  lemma WindowBoundExactlyWhen(cfg: Config)
    requires cfg.Valid() && cfg.maxMessages >= 0
    ensures (forall ms, w :: Escaped(cfg, NO_KEYS, ms, w, w) <= cfg.maxMessages) <==> cfg.blockScore <= 90
  {
    if cfg.blockScore <= 90 {
      forall ms, w ensures Escaped(cfg, NO_KEYS, ms, w, w) <= cfg.maxMessages { WindowsTrack(cfg, ms, w); }
    } else {
      PlainMessagesEscape(cfg, cfg.maxMessages + 1);
    }
  }

  // ---------- the code's own form ----------

  /** The decision is the highest trigger, named after one that reached it. */
  ghost predicate Decides(cfg: Config, d: Decision, triggers: seq<Trigger>) {
    && d.score == Top(triggers) && d.action == ActionFor(cfg, d.score)
    && (d.score == 0 ==> d.reason == "")
    && (d.score != 0 ==> Trigger(d.score, d.reason) in triggers)
  }

  /** The score is the highest of the triggers and the reason names one that reached it. */
  predicate NamedTop(triggers: seq<Trigger>, score: int, reason: string) {
    score == Top(triggers) && if score == 0 then reason == "" else Trigger(score, reason) in triggers
  }

  /** A muted user is blocked; else scores from blockScore on block, others from warnScore on warn. */
  predicate ActsOn(cfg: Config, muted: bool, d: Decision) {
    && (d.action == Block <==> muted || d.score >= cfg.blockScore)
    && (d.action == Warn <==> !muted && cfg.warnScore <= d.score < cfg.blockScore)
  }

  /** Each counter that works is counted, the mute key going with the rate counter; one that fails leaves its
      keys as they were. */
  predicate KeysCounted(cfg: Config, k: Keys, m: Message, rateWorks: bool, repeatWorks: bool, k': Keys)
    requires cfg.Valid()
  {
    var c := Counted(cfg, k, m);
    && k'.rate == (if rateWorks then c.rate else k.rate)
    && k'.muteUntil == (if rateWorks then c.muteUntil else k.muteUntil)
    && k'.repeats == (if repeatWorks then c.repeats else k.repeats)
  }

  /** After i rules the score is the highest of the first one and of those among them that fire. */
  ghost predicate Reached(rules: seq<Rule>, i: nat, score0: int, score: int)
    requires i <= |rules|
  {
    && score >= score0 && (forall k :: 0 <= k < i && Fires(rules[k]) ==> rules[k].score <= score)
    && (score == score0 || exists k :: 0 <= k < i && Fires(rules[k]) && rules[k].score == score)
  }

  lemma ReachedAll(rules: seq<Rule>, score0: int, score: int)
    requires Reached(rules, |rules|, score0, score)
    ensures forall r :: r in rules && r.enabled && r.compiles && r.matches ==> r.score <= score
    ensures score == score0 || exists r :: r in rules && r.enabled && r.compiles && r.matches && r.score == score
  {
    forall r | r in rules && r.enabled && r.compiles && r.matches ensures r.score <= score { assert Fires(r); }
    if score != score0 {
      var k :| 0 <= k < |rules| && Fires(rules[k]) && rules[k].score == score;
      assert rules[k] in rules;
    }
  }

  /** With both counters working the keys and the action are the judged ones. */
  lemma CountedIsJudged(cfg: Config, k: Keys, m: Message, flooded: bool, repeated: bool, score: int, k': Keys)
    requires cfg.Valid() && !Muted(k, m.ms) && KeysCounted(cfg, k, m, true, true, k')
    requires flooded == Flooded(cfg, k, m) && repeated == Repeated(k, m)
    requires score == Top(Triggers(flooded, repeated, m))
    ensures (k', ActionFor(cfg, score)) == Judge(cfg, k, m)
  {}

  class Moderator {
    const config: Config
    var keys: Keys

    constructor (config: Config)
      ensures this.config == config && keys == NO_KEYS
    {
      this.config := config;
      keys := NO_KEYS;
    }

    /** The signal chain: later signals only replace a lower score. */
    static method ScoreSignals(flooded: bool, repeated: bool, m: Message) returns (score: int, reason: string)
      ensures score == Top(Signals(flooded, repeated, m))
      ensures if score == 0 then reason == "" else Trigger(score, reason) in Signals(flooded, repeated, m)
      ensures score == if flooded then 90 else if m.scam then 85 else if repeated then 75
                       else if m.toxic then 60 else if m.url then 45 else 0
      ensures score == 90 ==> reason == "message flood detected"
      ensures score == 85 ==> reason == "possible scam"
      ensures score == 75 ==> reason == "repeated spam"
      ensures score == 60 ==> reason == "possible harassment"
      ensures score == 45 ==> reason == "external link"
    {
      score, reason := 0, "";
      if flooded { score, reason := 90, "message flood detected"; }
      if repeated && score < 75 { score, reason := 75, "repeated spam"; }
      if m.scam && score < 85 {
        score, reason := 85, "possible scam";
      } else if m.toxic && score < 60 {
        score, reason := 60, "possible harassment";
      } else if m.url && score < 45 {
        score, reason := 45, "external link";
      }
      SignalsTop(flooded, repeated, m);
    }

    /** The two counters; one that fails adds no signal. */
    method Count(m: Message, rateWorks: bool, repeatWorks: bool) returns (flooded: bool, repeated: bool)
      requires config.Valid()
      modifies this
      ensures flooded == (rateWorks && Flooded(config, old(keys), m))
      ensures repeated == (repeatWorks && Repeated(old(keys), m))
      ensures KeysCounted(config, old(keys), m, rateWorks, repeatWorks, keys)
    {
      flooded, repeated := false, false;
      if rateWorks {
        var w := m.Second() / config.window;
        var count := Incremented(keys.rate, w, m.ms);
        keys := keys.(rate := keys.rate[w := Counter(count, m.ms + (config.window + 2) * 1000)]);
        if count > config.maxMessages {
          keys := keys.(muteUntil := if config.mute > 0 then Some(m.ms + config.mute * 1000) else None);
          flooded := true;
        }
      }
      if m.content != "" && repeatWorks {
        var repeats := IncrementedText(keys.repeats, m.content, m.ms);
        keys := keys.(repeats := keys.repeats[m.content := Counter(repeats, m.ms + 120000)]);
        repeated := repeats >= 4;
      }
    }

    /** The rules in table order: each replaces a strictly lower score. */
    static method ApplyRules(rules: seq<Rule>, score0: int, reason0: string, ghost signals: seq<Trigger>)
      returns (score: int, reason: string)
      requires score0 == Top(signals) && if score0 == 0 then reason0 == "" else Trigger(score0, reason0) in signals
      ensures score == Top(signals + Fired(rules))
      ensures if score == 0 then reason == "" else Trigger(score, reason) in signals + Fired(rules)
      ensures score >= score0 && forall r :: r in rules && r.enabled && r.compiles && r.matches ==> r.score <= score
      ensures score == score0 || exists r :: r in rules && r.enabled && r.compiles && r.matches && r.score == score
    {
      score, reason := score0, reason0;
      assert signals + [] == signals;
      for i := 0 to |rules|
        invariant NamedTop(signals + Fired(rules[..i]), score, reason)
        invariant Reached(rules, i, score0, score)
      {
        var rule := rules[i];
        assert rules[..i + 1][..i] == rules[..i];
        RuleKeepsName(signals, Fired(rules[..i]), rule, score, reason);
        if rule.enabled && rule.compiles && rule.matches && rule.score > score {
          score, reason := rule.score, rule.name;
        }
      }
      assert rules[..|rules|] == rules;
      ReachedAll(rules, score0, score);
    }

    /** Moderate. While both counters work, the keys and the action are those of Judge. */
    method Moderate(m: Message, rateWorks: bool, repeatWorks: bool) returns (d: Decision)
      requires config.Valid()
      modifies this
      ensures Muted(old(keys), m.ms) ==> d == Decision(100, "temporarily rate limited", Block) && keys == old(keys)
      ensures !Muted(old(keys), m.ms) ==>
                Decides(config, d, Triggers(rateWorks && Flooded(config, old(keys), m), repeatWorks
                    && Repeated(old(keys), m), m))
      ensures !Muted(old(keys), m.ms) ==> KeysCounted(config, old(keys), m, rateWorks, repeatWorks, keys)
      ensures rateWorks && repeatWorks ==> (keys, d.action) == Judge(config, old(keys), m)
      ensures ActsOn(config, Muted(old(keys), m.ms), d)
      ensures var signal := if rateWorks && Flooded(config, old(keys), m) then 90 else if m.scam then 85
                            else if repeatWorks && Repeated(old(keys), m) then 75
                            else if m.toxic then 60 else if m.url then 45 else 0;
              !Muted(old(keys), m.ms) ==>
                && d.score >= signal
                && (forall r :: r in m.rules && r.enabled && r.compiles && r.matches ==> r.score <= d.score)
                && (d.score == signal ||
                    exists r :: r in m.rules && r.enabled && r.compiles && r.matches && r.score == d.score)
    {
      if Muted(keys, m.ms) { return Decision(100, "temporarily rate limited", Block); }
      var flooded, repeated := Count(m, rateWorks, repeatWorks);
      var score, reason := ScoreSignals(flooded, repeated, m);
      score, reason := ApplyRules(m.rules, score, reason, Signals(flooded, repeated, m));
      d := Decision(score, reason, ActionFor(config, score));
      if rateWorks && repeatWorks { CountedIsJudged(config, old(keys), m, flooded, repeated, score, keys); }
    }
  }

  lemma TopSnoc(a: seq<Trigger>, t: Trigger)
    ensures Top(a + [t]) == if t.score > Top(a) then t.score else Top(a)
  {
    assert (a + [t])[..|a|] == a;
  }

  lemma RuleStep(signals: seq<Trigger>, fired: seq<Trigger>, rule: Rule)
    ensures var t := Trigger(rule.score, rule.name);
            && Top(signals + (fired + If(Fires(rule), t))) ==
                (if Fires(rule) && rule.score > Top(signals + fired) then rule.score else Top(signals + fired))
            && (forall x :: x in signals + fired ==> x in signals + (fired + If(Fires(rule), t)))
            && (Fires(rule) ==> t in signals + (fired + If(Fires(rule), t)))
  {
    var t := Trigger(rule.score, rule.name);
    if Fires(rule) {
      assert signals + (fired + [t]) == (signals + fired) + [t];
      TopSnoc(signals + fired, t);
    } else {
      assert fired + [] == fired;
    }
  }

  /** One more rule keeps the top and its name. */
  lemma RuleKeepsName(signals: seq<Trigger>, fired: seq<Trigger>, rule: Rule, score: int, reason: string)
    requires NamedTop(signals + fired, score, reason)
    ensures var triggers := signals + (fired + If(Fires(rule), Trigger(rule.score, rule.name)));
            if Fires(rule) && rule.score > score then NamedTop(triggers, rule.score, rule.name)
            else NamedTop(triggers, score, reason)
  {
    RuleStep(signals, fired, rule);
    TopIsMaximum(signals + fired);
  }

  lemma TopIf(a: seq<Trigger>, b: bool, t: Trigger)
    ensures Top(a + If(b, t)) == if b && t.score > Top(a) then t.score else Top(a)
  {
    if b { TopSnoc(a, t); } else { assert a + [] == a; }
  }

  lemma SignalsTop(flooded: bool, repeated: bool, m: Message)
    ensures Top(Signals(flooded, repeated, m)) ==
              if flooded then 90 else if m.scam then 85 else if repeated then 75 else if m.toxic then 60
                  else if m.url then 45 else 0
  {
    var a := If(flooded, FLOOD);
    assert [] + a == a;
    TopIf([], flooded, FLOOD);
    TopIf(a, repeated, REPEAT);
    TopIf(a + If(repeated, REPEAT), m.scam, SCAM);
    TopIf(a + If(repeated, REPEAT) + If(m.scam, SCAM), m.toxic, TOXIC);
    TopIf(a + If(repeated, REPEAT) + If(m.scam, SCAM) + If(m.toxic, TOXIC), m.url, LINK);
  }
}
