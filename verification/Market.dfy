/** Bars, raw strategy signals and strategies, as the backtester and the strategy library share them. */
module Market {
  import opened Numbers

  /** One OHLCV bar. Close-only data has no range or volume; `timestamp` is in seconds since 1970. */
  datatype Bar = Bar(timestamp: real, high: Option<real>, low: Option<real>, close: real, volume: Option<real>)

  /** Whatever a strategy may return. */
  datatype RawSignal = Missing | Number(value: real) | Word(text: string)

  /** `perBar` gets the history up to and including the current bar; `signalSeries` gets every bar at once. */
  datatype Strategy = Strategy(perBar: seq<Bar> -> RawSignal, signalSeries: Option<seq<Bar> -> seq<RawSignal>>)

  predicate IsSpace(c: char) {
    c in {' ', '\t', '\n', '\r'}
  }

  function Strip(text: string): string {
    if text != [] && IsSpace(text[0]) then Strip(text[1..])
    else if text != [] && IsSpace(text[|text| - 1]) then Strip(text[..|text| - 1])
    else text
  }

  function Lower(text: string): string {
    seq(|text|, i requires 0 <= i < |text| => if 'A' <= text[i] <= 'Z' then text[i] - 'A' + 'a' else text[i])
  }

  function Normalize(raw: RawSignal): real {
    match raw
    case Missing => 0.0
    case Number(value) => value
    case Word(text) =>
      var word := Lower(Strip(text));
      if word in {"buy", "long", "1", "true", "enter"} then 1.0
      else if word in {"sell", "short", "-1", "false", "exit"} then -1.0
      else 0.0
  }

  /** The signal at every bar: one pass when the strategy offers it, else one call per growing history. */
  function SignalsOf(strategy: Strategy, bars: seq<Bar>): seq<RawSignal> {
    match strategy.signalSeries
    case Some(series) => series(bars)
    case None => seq(|bars|, i requires 0 <= i < |bars| => strategy.perBar(bars[..i + 1]))
  }

  // ---------- what words mean ----------

  const LONG_WORDS: seq<string> := ["buy", "long", "1", "true", "enter"]

  const SHORT_WORDS: seq<string> := ["sell", "short", "-1", "false", "exit"]

  /** The two texts read the same but for upper and lower case. */
  ghost predicate SameWord(a: string, b: string) {
    |a| == |b| && forall i :: 0 <= i < |a| ==> a[i] == b[i] || ('A' <= a[i] <= 'Z' && a[i] - 'A' + 'a' == b[i])
  }

  lemma LowerMeans(a: string, b: string)
    requires forall i :: 0 <= i < |b| ==> !('A' <= b[i] <= 'Z')
    ensures Lower(a) == b <==> SameWord(a, b)
  {
    if SameWord(a, b) {
      forall i | 0 <= i < |a|
        ensures Lower(a)[i] == b[i]
      {
      }
    }
  }

  ghost predicate Blank(text: string) {
    forall i :: 0 <= i < |text| ==> IsSpace(text[i])
  }

  /** Blanks around a word do not count. */
  lemma {:induction false} StripBlanks(before: string, word: string, after: string)
    requires Blank(before) && Blank(after)
    requires word != [] && !IsSpace(word[0]) && !IsSpace(word[|word| - 1])
    ensures Strip(before + word + after) == word
    decreases |before| + |after|
  {
    var text := before + word + after;
    if before != [] {
      assert text[1..] == before[1..] + word + after;
      StripBlanks(before[1..], word, after);
    } else if after != [] {
      var n := |after| - 1;
      assert text == word + after && text[..|text| - 1] == before + word + after[..n];
      StripBlanks(before, word, after[..n]);
    } else {
      assert text == word;
    }
  }

  /** A word that is one of the five for a side, in any case and with any blanks around it, asks for that side. */
  lemma WordsMean(before: string, word: string, after: string, k: nat)
    requires Blank(before) && Blank(after) && k < 5
    ensures SameWord(word, LONG_WORDS[k]) ==> Normalize(Word(before + word + after)) == 1.0
    ensures SameWord(word, SHORT_WORDS[k]) ==> Normalize(Word(before + word + after)) == -1.0
  {
    hide Strip;
    hide Lower;
    if SameWord(word, LONG_WORDS[k]) {
      StripBlanks(before, word, after);
      LowerMeans(word, LONG_WORDS[k]);
    }
    if SameWord(word, SHORT_WORDS[k]) {
      StripBlanks(before, word, after);
      LowerMeans(word, SHORT_WORDS[k]);
    }
  }

  /** Any other word, a missing signal and the number 0 ask for nothing; other numbers stand for themselves. */
  lemma OtherSignalsMean(before: string, word: string, after: string)
    requires Blank(before) && Blank(after) && word != [] && !IsSpace(word[0]) && !IsSpace(word[|word| - 1])
    requires forall k :: 0 <= k < 5 ==> !SameWord(word, LONG_WORDS[k]) && !SameWord(word, SHORT_WORDS[k])
    ensures Normalize(Word(before + word + after)) == 0.0 == Normalize(Missing)
    ensures forall x :: Normalize(Number(x)) == x
  {
    hide Strip;
    hide Lower;
    StripBlanks(before, word, after);
    forall k | 0 <= k < 5
      ensures Lower(word) != LONG_WORDS[k] && Lower(word) != SHORT_WORDS[k]
    {
      LowerMeans(word, LONG_WORDS[k]);
      LowerMeans(word, SHORT_WORDS[k]);
    }
    assert LONG_WORDS[0] == "buy" && LONG_WORDS[1] == "long" && LONG_WORDS[2] == "1";
    assert LONG_WORDS[3] == "true" && LONG_WORDS[4] == "enter";
    assert SHORT_WORDS[0] == "sell" && SHORT_WORDS[1] == "short" && SHORT_WORDS[2] == "-1";
    assert SHORT_WORDS[3] == "false" && SHORT_WORDS[4] == "exit";
  }
}
