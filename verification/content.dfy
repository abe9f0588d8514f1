/** The content resolver: a notification payload from the static list, the
    remote endpoint or the built-in generator. Every random draw is an
    injected index. */
module Content {
  import opened Wrappers
  import opened Text
  import opened Settings

  const Actions: seq<string> := [
    "bought this", "joined the program", "enrolled", "got access",
    "completed their purchase", "signed up", "started their journey",
    "secured their spot"]

  const Timeframes: seq<string> := [
    "in the last hour", "recently", "X minutes ago", "in the last X hours"]

  const Counts: seq<string> := ["Two", "Three", "Four", "Five", "Six", "Seven", "Eight"]

  const JustNow: string := "Just now"

  /** The random draws of one resolution: the list element picked, the
      action, timeframe and count words, and the number put into the
      timeframe (the draw `number` stands for the integer `number + 2`). */
  datatype Draws = Draws(pick: nat, action: nat, timeframe: nat, count: nat, number: nat)

  /** The ranges `Math.floor(Math.random() * n)` can produce. */
  predicate ValidDraws(d: Draws) {
    d.action < |Actions| && d.timeframe < |Timeframes| && d.count < |Counts| && d.number < 8
  }

  /** The outcome of `fetch` followed by `response.json()`. */
  datatype FetchOutcome = Fetched(body: Payload) | FetchFailed

  /** A timeframe whose `X` placeholder is filled with the integer
      `number + 2`, in [2, 9]; only the first `X` is replaced. */
  function ExpandTimeframe(tf: string, number: nat): (r: string)
    requires number < 8
    ensures 'X' !in tf ==> r == tf
    ensures forall i :: 0 <= i < |tf| && tf[i] == 'X' && 'X' !in tf[..i] ==>
              r == tf[..i] + NatToDecimal(number + 2) + tf[i + 1..]
  {
    if 'X' in tf then
      var r := ReplaceFirst(tf, "X", NatToDecimal(number + 2));
      forall i | 0 <= i < |tf| && tf[i] == 'X' && 'X' !in tf[..i]
        ensures r == tf[..i] + NatToDecimal(number + 2) + tf[i + 1..]
      {
        FirstCharOccurrence(tf, 'X', i);
        ReplaceFirstAtFirst(tf, "X", NatToDecimal(number + 2), i);
      }
      r
    else
      tf
  }

  /** The template with the first `{count}`, then the first `{action}`, then
      the first `{timeframe}` substituted. A template without any `{` has no
      placeholder to fill and comes out unchanged; `InterpolateInOrder`
      states where the words land otherwise. */
  function Interpolate(template: string, count: string, action: string, timeframe: string): (r: string)
    ensures (forall i :: 0 <= i < |template| ==> template[i] != '{') ==> r == template
  {
    NothingToInterpolate(template, count, action, timeframe);
    ReplaceFirst(ReplaceFirst(ReplaceFirst(template, "{count}", count), "{action}", action), "{timeframe}", timeframe)
  }

  /** Every placeholder starts with `{`, so a template without one is left
      alone by each of the three replacements. */
  lemma NothingToInterpolate(template: string, count: string, action: string, timeframe: string)
    ensures (forall i :: 0 <= i < |template| ==> template[i] != '{') ==>
      ReplaceFirst(ReplaceFirst(ReplaceFirst(template, "{count}", count), "{action}", action), "{timeframe}", timeframe) == template
  {
    if forall i :: 0 <= i < |template| ==> template[i] != '{' {
      assert '{' !in template;
      ReplaceFirstAbsent(template, "{count}", count);
      ReplaceFirstAbsent(template, "{action}", action);
      ReplaceFirstAbsent(template, "{timeframe}", timeframe);
    }
  }

  /** A synthetic payload. A template without any `{` comes out unchanged. */
  function Generate(template: string, d: Draws): (r: Payload)
    requires ValidDraws(d)
    ensures r.timestamp == Some(JustNow)
    ensures '{' !in template ==> r.message == template
  {
    var timeframe := ExpandTimeframe(Timeframes[d.timeframe], d.number);
    Payload(Interpolate(template, Counts[d.count], Actions[d.action], timeframe), Some(JustNow))
  }

  /** `p` is a payload the generator can produce from `template`. */
  ghost predicate IsGenerated(template: string, p: Payload) {
    exists d :: ValidDraws(d) && p == Generate(template, d)
  }

  predicate LocalListed(cfg: Config) {
    cfg.dataSource == "local" && |cfg.localData| > 0
  }

  /** Remote mode with a non-empty endpoint (a null or empty URL is falsy). */
  predicate ApiConfigured(cfg: Config) {
    cfg.dataSource == "api" && cfg.apiUrl.Some? && cfg.apiUrl.value != ""
  }

  /** The payload for one display attempt. */
  function Resolve(cfg: Config, d: Draws, fetch: FetchOutcome): (r: Payload)
    requires ValidDraws(d)
    requires LocalListed(cfg) ==> d.pick < |cfg.localData|
    ensures LocalListed(cfg) ==> r in cfg.localData
    ensures ApiConfigured(cfg) && fetch.Fetched? ==> r == fetch.body
    ensures !LocalListed(cfg) && !(ApiConfigured(cfg) && fetch.Fetched?) ==> IsGenerated(cfg.messageFormat, r)
  {
    if cfg.dataSource == "local" then
      if |cfg.localData| > 0 then cfg.localData[d.pick] else Generate(cfg.messageFormat, d)
    else if ApiConfigured(cfg) then
      match fetch
      case Fetched(body) => body
      case FetchFailed => Generate(cfg.messageFormat, d)
    else
      Generate(cfg.messageFormat, d)
  }

  /** Not one of the characters a placeholder is made of. */
  predicate PlainChar(c: char) {
    c != '{' && c != '}' && c != 'X'
  }

  /** The text carries no placeholder character. */
  predicate Plain(w: string) {
    forall i :: 0 <= i < |w| ==> PlainChar(w[i])
  }

  /** Joining placeholder-free pieces gives placeholder-free text. */
  lemma PlainConcat(a: string, b: string)
    requires Plain(a) && Plain(b)
    ensures Plain(a + b)
  {
  }

  lemma ActionIsPlain(a: nat)
    requires a < |Actions|
    ensures Plain(Actions[a])
  {
    match a
    case 0 => assert Plain("bought this");
    case 1 => assert Plain("joined the program");
    case 2 => assert Plain("enrolled");
    case 3 => assert Plain("got access");
    case 4 => assert Plain("completed their purchase");
    case 5 => assert Plain("signed up");
    case 6 => assert Plain("started their journey");
    case 7 => assert Plain("secured their spot");
  }

  lemma CountIsPlain(c: nat)
    requires c < |Counts|
    ensures Plain(Counts[c])
  {
    match c
    case 0 => assert Plain("Two");
    case 1 => assert Plain("Three");
    case 2 => assert Plain("Four");
    case 3 => assert Plain("Five");
    case 4 => assert Plain("Six");
    case 5 => assert Plain("Seven");
    case 6 => assert Plain("Eight");
  }

  /** Every vocabulary timeframe has at most one `X`, so expansion leaves
      none behind; the number lands where the `X` stood. */
  lemma TimeframeExpansion(t: nat, number: nat)
    requires t < |Timeframes| && number < 8
    ensures var r := ExpandTimeframe(Timeframes[t], number);
      && Plain(r)
      && (t == 2 ==> r == [DigitChar(number + 2)] + " minutes ago")
      && (t == 3 ==> r == "in the last " + [DigitChar(number + 2)] + " hours")
      && (t < 2 ==> r == Timeframes[t])
  {
    match t
    case 0 => assert Plain("in the last hour");
    case 1 => assert Plain("recently");
    case 2 => ExpandMinutes(number);
    case 3 => ExpandHours(number);
  }

  /** Expanding a timeframe with a single `X`: the number takes its place. */
  lemma ExpandSingle(a: string, b: string, number: nat)
    requires 'X' !in a && number < 8
    ensures ExpandTimeframe(a + "X" + b, number) == a + [DigitChar(number + 2)] + b
  {
    assert (a + "X" + b)[|a|] == 'X';
    ReplaceFirstAfterPrefix(a, "X", b, NatToDecimal(number + 2));
  }

  lemma ExpandMinutes(number: nat)
    requires number < 8
    ensures var r := ExpandTimeframe(Timeframes[2], number);
      Plain(r) && r == [DigitChar(number + 2)] + " minutes ago"
  {
    var e := [DigitChar(number + 2)] + " minutes ago";
    assert Plain(e);
    assert ExpandTimeframe(Timeframes[2], number) == e by {
      assert Timeframes[2] == "" + "X" + " minutes ago";
      ExpandSingle("", " minutes ago", number);
    }
  }

  lemma ExpandHours(number: nat)
    requires number < 8
    ensures var r := ExpandTimeframe(Timeframes[3], number);
      Plain(r) && r == "in the last " + [DigitChar(number + 2)] + " hours"
  {
    var e := "in the last " + [DigitChar(number + 2)] + " hours";
    assert Plain(e);
    assert ExpandTimeframe(Timeframes[3], number) == e by {
      assert Timeframes[3] == "in the last " + "X" + " hours";
      ExpandSingle("in the last ", " hours", number);
    }
  }

  /** A template holding each placeholder once, in the order
      `generateRandomNotification` substitutes them, with no other `{` before the last one, comes out
      with the three words in place. */
  lemma InterpolateInOrder(p0: string, p1: string, p2: string, p3: string, count: string, action: string, timeframe: string)
    requires '{' !in p0 && '{' !in p1 && '{' !in p2 && '{' !in count && '{' !in action
    ensures Interpolate(p0 + "{count}" + p1 + "{action}" + p2 + "{timeframe}" + p3, count, action, timeframe)
         == p0 + count + p1 + action + p2 + timeframe + p3
  {
    var s0 := p0 + "{count}" + p1 + "{action}" + p2 + "{timeframe}" + p3;
    var s1 := p0 + count + p1 + "{action}" + p2 + "{timeframe}" + p3;
    var s2 := p0 + count + p1 + action + p2 + "{timeframe}" + p3;
    var s3 := p0 + count + p1 + action + p2 + timeframe + p3;
    ReplaceFirstAt(s0, p0, "{count}", p1 + "{action}" + p2 + "{timeframe}" + p3, count, s1);
    ReplaceFirstAt(s1, p0 + count + p1, "{action}", p2 + "{timeframe}" + p3, action, s2);
    ReplaceFirstAt(s2, p0 + count + p1 + action + p2, "{timeframe}", p3, timeframe, s3);
  }

  /** The default template joins the three words into a sentence. The
      template is a parameter equal to `DefaultMessageFormat` rather than
      the constant itself: that keeps the string literal out of the terms
      the solver unfolds, which makes the proof far cheaper. */
  lemma DefaultInterpolation(template: string, count: string, action: string, timeframe: string)
    requires template == DefaultMessageFormat && '{' !in count && '{' !in action
    ensures Interpolate(template, count, action, timeframe) == count + " people " + action + " " + timeframe + "!"
  {
    var parts := "" + "{count}" + " people " + "{action}" + " " + "{timeframe}" + "!";
    assert template == parts;
    InterpolateInOrder("", " people ", " ", "!", count, action, timeframe);
    assert "" + count == count;
  }

  /** With the default template the message is the three words joined into
      the sentence, and no `{`, `}` or `X` is left in it. */
  lemma DefaultTemplateMessage(cfg: Config, d: Draws)
    requires ValidDraws(d) && cfg.messageFormat == DefaultMessageFormat
    ensures var m := Generate(cfg.messageFormat, d).message;
      && m == Counts[d.count] + " people " + Actions[d.action] + " "
              + ExpandTimeframe(Timeframes[d.timeframe], d.number) + "!"
      && '{' !in m && '}' !in m && 'X' !in m
  {
    var count, action := Counts[d.count], Actions[d.action];
    var timeframe := ExpandTimeframe(Timeframes[d.timeframe], d.number);
    var e := count + " people " + action + " " + timeframe + "!";
    ActionIsPlain(d.action);
    CountIsPlain(d.count);
    TimeframeExpansion(d.timeframe, d.number);
    assert Plain(e) by {
      assert Plain(" people ") && Plain(" ") && Plain("!");
      PlainConcat(count, " people ");
      PlainConcat(count + " people ", action);
      PlainConcat(count + " people " + action, " ");
      PlainConcat(count + " people " + action + " ", timeframe);
      PlainConcat(count + " people " + action + " " + timeframe, "!");
    }
    assert '{' !in count && '{' !in action;
    DefaultInterpolation(cfg.messageFormat, count, action, timeframe);
    assert Generate(cfg.messageFormat, d).message == e;
    assert '{' !in e && '}' !in e && 'X' !in e;
  }

  /** The local source with an empty list falls back to the generator; with
      the default template no placeholder survives. */
  lemma EmptyLocalListGenerates(cfg: Config, d: Draws, fetch: FetchOutcome)
    requires ValidDraws(d)
    requires cfg.dataSource == "local" && cfg.localData == [] && cfg.messageFormat == DefaultMessageFormat
    ensures var p := Resolve(cfg, d, fetch);
      && p.timestamp == Some(JustNow) && '{' !in p.message && '}' !in p.message
  {
    DefaultTemplateMessage(cfg, d);
  }

  /** A failed fetch never surfaces: the payload is a generated one. */
  lemma FetchFailureFallsBack(cfg: Config, d: Draws)
    requires ValidDraws(d) && ApiConfigured(cfg)
    ensures Resolve(cfg, d, FetchFailed) == Generate(cfg.messageFormat, d)
    ensures Resolve(cfg, d, FetchFailed).timestamp == Some(JustNow)
  {
  }
}
