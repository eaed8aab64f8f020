/** What a button action does, in the order it does it: the Stream Deck
    calls it makes on its key (alert, title, state, image, settings) and the
    device client calls it issues. Device replies are inputs of the actions,
    so a client call is recorded by its arguments. */
module Effects {
  import opened Types
  import opened Text
  import opened ShellyClient
  import opened IconGenerator

  datatype Effect =
    | ShowAlert
    | SetTitle(title: string)
    | SetState(state: int)
    | SetImage(image: IconImage, forState: Option<int>)
    | SetSettings(settings: ActionSettings)
    | Call(call: ClientCall)

  /** The client calls among the effects, in order. */
  function Calls(es: seq<Effect>): seq<ClientCall> {
    if |es| == 0 then []
    else (if es[0].Call? then [es[0].call] else []) + Calls(es[1..])
  }

  /** The titles set, in order. */
  function Titles(es: seq<Effect>): seq<string> {
    if |es| == 0 then []
    else (if es[0].SetTitle? then [es[0].title] else []) + Titles(es[1..])
  }

  lemma {:induction false} CallsAppend(a: seq<Effect>, b: seq<Effect>)
    ensures Calls(a + b) == Calls(a) + Calls(b)
    decreases |a|
  {
    if |a| > 0 {
      assert (a + b)[1..] == a[1..] + b;
      CallsAppend(a[1..], b);
    } else {
      assert a + b == b;
    }
  }

  lemma {:induction false} TitlesAppend(a: seq<Effect>, b: seq<Effect>)
    ensures Titles(a + b) == Titles(a) + Titles(b)
    decreases |a|
  {
    if |a| > 0 {
      assert (a + b)[1..] == a[1..] + b;
      TitlesAppend(a[1..], b);
    } else {
      assert a + b == b;
    }
  }

  /** An effect that is neither a call nor a title adds neither. */
  lemma PrependQuiet(e: Effect, es: seq<Effect>)
    requires !e.Call? && !e.SetTitle?
    ensures Calls([e] + es) == Calls(es) && Titles([e] + es) == Titles(es)
  {
    assert ([e] + es)[1..] == es;
  }

  /** One Call effect per client call, in order. */
  function CallEffects(cs: seq<ClientCall>): (es: seq<Effect>)
    ensures |es| == |cs|
    ensures forall i :: 0 <= i < |cs| ==> es[i] == Call(cs[i])
  {
    seq(|cs|, i requires 0 <= i < |cs| => Call(cs[i]))
  }

  /** Recording calls as effects loses nothing and adds no title. */
  lemma {:induction false} CallEffectsRoundTrip(cs: seq<ClientCall>)
    ensures Calls(CallEffects(cs)) == cs
    ensures Titles(CallEffects(cs)) == []
    decreases |cs|
  {
    if |cs| > 0 {
      assert CallEffects(cs)[1..] == CallEffects(cs[1..]);
      CallEffectsRoundTrip(cs[1..]);
    }
  }

  /** Calls followed by a refresh that makes none: the calls come back in
      order, the titles are the refresh's, and the effects are exactly the
      calls and then the refresh. */
  lemma CallsThenRefresh(cs: seq<ClientCall>, refresh: seq<Effect>)
    requires Calls(refresh) == []
    ensures Calls(CallEffects(cs) + refresh) == cs
    ensures Titles(CallEffects(cs) + refresh) == Titles(refresh)
    ensures CallEffects(cs) + refresh == CallEffects(Calls(CallEffects(cs) + refresh)) + refresh
  {
    CallEffectsRoundTrip(cs);
    CallsAppend(CallEffects(cs), refresh);
    TitlesAppend(CallEffects(cs), refresh);
  }

  /** Effects that issue no client call and set no title. */
  predicate KeyImageOnly(es: seq<Effect>) {
    forall i :: 0 <= i < |es| ==> es[i].SetImage?
  }

  lemma {:induction false} KeyImageOnlyQuiet(es: seq<Effect>)
    requires KeyImageOnly(es)
    ensures Calls(es) == [] && Titles(es) == []
    decreases |es|
  {
    if |es| > 0 {
      KeyImageOnlyQuiet(es[1..]);
    }
  }

  /** `${n}%`. */
  function Percent(n: int): (s: string)
    ensures |s| >= 2 && s[|s| - 1] == '%'
    ensures IsDigit(s[0]) <==> n >= 0
  {
    IntToString(n) + "%"
  }

  /** Distinct numbers give distinct percentage titles. */
  lemma PercentInjective(a: int, b: int)
    requires Percent(a) == Percent(b)
    ensures a == b
  {
    assert IntToString(a) == Percent(a)[..|Percent(a)| - 1];
    assert IntToString(b) == Percent(b)[..|Percent(b)| - 1];
    IntToStringInjective(a, b);
  }

  /** The two default percentages the buttons show. */
  lemma DefaultPercents()
    ensures Percent(50) == "50%" && Percent(100) == "100%"
  {
    assert NatToString(5) == "5";
    assert NatToString(1) == "1";
    assert NatToString(10) == NatToString(1) + [DigitChar(0)] == "10";
    assert NatToString(100) == NatToString(10) + [DigitChar(0)] == "100";
  }
}
