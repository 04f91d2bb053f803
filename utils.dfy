/** The pure helpers of the app library: first word, camelCase to title, trend percentage,
    and extraction of a JSON code fence from model text. */
module Utils {
  import opened Js

  // ---------------------------------------------------------------------------
  // getFirstWord

  /** The characters JavaScript's `trim` removes and `\s` matches: WhiteSpace and
      LineTerminator of ECMAScript. */
  predicate IsJsSpace(c: char) {
    c == '\t' || c == '\n' || c == '\U{0B}' || c == '\U{0C}' || c == '\r' || c == ' '
    || c == '\U{A0}' || c == '\U{1680}' || ('\U{2000}' <= c <= '\U{200A}')
    || c == '\U{2028}' || c == '\U{2029}' || c == '\U{202F}' || c == '\U{205F}'
    || c == '\U{3000}' || c == '\U{FEFF}'
  }

  predicate AllSpace(s: string) {
    forall i :: 0 <= i < |s| ==> IsJsSpace(s[i])
  }

  /** Drops the leading whitespace. */
  function TrimStart(s: string): (r: string)
    ensures |r| <= |s| && r == s[|s| - |r|..]
    ensures AllSpace(s[..|s| - |r|])
    ensures r == [] || !IsJsSpace(r[0])
  {
    if s != [] && IsJsSpace(s[0]) then TrimStart(s[1..]) else s
  }

  /** Drops the trailing whitespace. */
  function TrimEnd(s: string): (r: string)
    ensures r <= s
    ensures AllSpace(s[|r|..])
    ensures r == [] || !IsJsSpace(r[|r| - 1])
  {
    if s != [] && IsJsSpace(s[|s| - 1]) then TrimEnd(s[..|s| - 1]) else s
  }

  /** `s.trim()`. */
  function Trim(s: string): string {
    TrimEnd(TrimStart(s))
  }

  /** The first piece of `t.split(/\s+/)`: everything before the first whitespace character. */
  function LeadingWord(t: string): (w: string)
    ensures w <= t
    ensures !exists i :: 0 <= i < |w| && IsJsSpace(w[i])
    ensures |w| == |t| || IsJsSpace(t[|w|])
  {
    if t == [] || IsJsSpace(t[0]) then [] else [t[0]] + LeadingWord(t[1..])
  }

  /** Trimming leaves nothing exactly when the input is all whitespace, and otherwise
      starts with a character that is not whitespace. */
  lemma TrimEmptyIffAllSpace(s: string)
    ensures Trim(s) == [] <==> AllSpace(s)
    ensures Trim(s) != [] ==> !IsJsSpace(Trim(s)[0])
  {
    var ts := TrimStart(s);
    if ts != [] {
      assert !IsJsSpace(ts[0]);
      assert Trim(s) != [] && Trim(s)[0] == ts[0];
    } else {
      assert s == s[..|s| - |ts|];
    }
  }

  /** getFirstWord: `input.trim().split(/\s+/)[0] || ""`. The word has no whitespace, is a
      prefix of the trimmed input that stops at its first whitespace, and is empty exactly when the input is all whitespace. */
  function GetFirstWord(input: string): (w: string)
    ensures w <= Trim(input)
    ensures forall i :: 0 <= i < |w| ==> !IsJsSpace(w[i])
    ensures |w| == |Trim(input)| || IsJsSpace(Trim(input)[|w|])
    ensures w == [] <==> AllSpace(input)
  {
    TrimEmptyIffAllSpace(input);
    LeadingWord(Trim(input))
  }

  // ---------------------------------------------------------------------------
  // formatKey

  predicate IsAsciiUpper(c: char) {
    'A' <= c <= 'Z'
  }

  /** The characters `.` does not match in a JavaScript regular expression. */
  predicate IsLineTerminator(c: char) {
    c == '\n' || c == '\r' || c == '\U{2028}' || c == '\U{2029}'
  }

  /** `c.toUpperCase()` for ASCII letters; other characters are left unchanged. */
  function ToUpper(c: char): char {
    if 'a' <= c <= 'z' then (c as int - 32) as char else c
  }

  function CountUpper(s: string): nat {
    if s == [] then 0 else (if IsAsciiUpper(s[0]) then 1 else 0) + CountUpper(s[1..])
  }

  /** `s.replace(/([A-Z])/g, " $1")`. */
  function SpaceBeforeCapitals(s: string): string {
    if s == [] then []
    else (if IsAsciiUpper(s[0]) then [' ', s[0]] else [s[0]]) + SpaceBeforeCapitals(s[1..])
  }

  /** The inverse of SpaceBeforeCapitals: drops every space that stands before a capital. */
  function DropSpaceBeforeCapitals(s: string): string {
    if |s| >= 2 && s[0] == ' ' && IsAsciiUpper(s[1]) then [s[1]] + DropSpaceBeforeCapitals(s[2..])
    else if s == [] then []
    else [s[0]] + DropSpaceBeforeCapitals(s[1..])
  }

  /** Inserting the spaces adds one character per capital, and every capital of the result
      has a space right before it. */
  lemma {:induction false} SpaceBeforeCapitalsShape(s: string)
    ensures |SpaceBeforeCapitals(s)| == |s| + CountUpper(s)
    ensures forall i :: 0 <= i < |SpaceBeforeCapitals(s)| && IsAsciiUpper(SpaceBeforeCapitals(s)[i]) ==>
              i >= 1 && SpaceBeforeCapitals(s)[i - 1] == ' '
  {
    if s != [] {
      SpaceBeforeCapitalsShape(s[1..]);
      var head := if IsAsciiUpper(s[0]) then [' ', s[0]] else [s[0]];
      var rest := SpaceBeforeCapitals(s[1..]);
      assert SpaceBeforeCapitals(s) == head + rest;
      forall i | 0 <= i < |head + rest| && IsAsciiUpper((head + rest)[i])
        ensures i >= 1 && (head + rest)[i - 1] == ' '
      {
        if i >= |head| {
          assert (head + rest)[i] == rest[i - |head|];
          if i - |head| >= 1 {
            assert (head + rest)[i - 1] == rest[i - |head| - 1];
          } else {
            assert false;
          }
        }
      }
    }
  }

  /** A result of SpaceBeforeCapitals never has a capital right at its start. */
  lemma {:induction false} SpaceBeforeCapitalsStart(s: string)
    requires s != []
    ensures SpaceBeforeCapitals(s) != [] && !IsAsciiUpper(SpaceBeforeCapitals(s)[0])
  {
  }

  /** No information is lost: the spaces inserted before capitals can be taken out again. */
  lemma {:induction false} SpaceBeforeCapitalsRoundTrip(s: string)
    ensures DropSpaceBeforeCapitals(SpaceBeforeCapitals(s)) == s
  {
    if s != [] {
      var rest := SpaceBeforeCapitals(s[1..]);
      SpaceBeforeCapitalsRoundTrip(s[1..]);
      if IsAsciiUpper(s[0]) {
        assert SpaceBeforeCapitals(s) == [' ', s[0]] + rest;
        assert ([' ', s[0]] + rest)[2..] == rest;
      } else {
        assert SpaceBeforeCapitals(s) == [s[0]] + rest;
        if s[0] == ' ' && rest != [] {
          SpaceBeforeCapitalsStart(s[1..]);
        }
        assert ([s[0]] + rest)[1..] == rest;
      }
    }
  }

  /** `s.replace(/^./, c => c.toUpperCase())`. */
  function UpperFirst(s: string): string {
    if s != [] && !IsLineTerminator(s[0]) then [ToUpper(s[0])] + s[1..] else s
  }

  /** A key that starts with a lower-case letter keeps its first character in front of the
      inserted spaces, so upper-casing it and dropping the spaces gives the key back with an
      upper-case first letter. */
  lemma {:induction false} LowerStartRecovered(key: string)
    ensures key != [] && 'a' <= key[0] <= 'z' ==>
              var r := UpperFirst(SpaceBeforeCapitals(key));
              r[0] == ToUpper(key[0]) && DropSpaceBeforeCapitals(r) == [r[0]] + key[1..]
  {
    if key != [] && 'a' <= key[0] <= 'z' {
      SpaceBeforeCapitalsRoundTrip(key[1..]);
      var rest := SpaceBeforeCapitals(key[1..]);
      assert SpaceBeforeCapitals(key) == [key[0]] + rest;
      assert UpperFirst(SpaceBeforeCapitals(key)) == [ToUpper(key[0])] + rest;
      assert DropSpaceBeforeCapitals([ToUpper(key[0])] + rest)
          == [ToUpper(key[0])] + DropSpaceBeforeCapitals(rest);
    }
  }

  /** For every key, dropping the inserted spaces from the result gives the key with its
      first character upper-cased as the second replace does. */
  lemma {:induction false} UpperFirstRecovered(key: string)
    ensures DropSpaceBeforeCapitals(UpperFirst(SpaceBeforeCapitals(key))) == UpperFirst(key)
  {
    if key != [] {
      var rest := SpaceBeforeCapitals(key[1..]);
      SpaceBeforeCapitalsRoundTrip(key[1..]);
      SpaceBeforeCapitalsRoundTrip(key);
      if IsAsciiUpper(key[0]) {
        assert SpaceBeforeCapitals(key) == [' ', key[0]] + rest;
        assert UpperFirst(SpaceBeforeCapitals(key)) == SpaceBeforeCapitals(key);
        assert ([' ', key[0]] + rest)[2..] == rest;
        assert UpperFirst(key) == key;
      } else if !IsLineTerminator(key[0]) {
        assert SpaceBeforeCapitals(key) == [key[0]] + rest;
        assert UpperFirst(SpaceBeforeCapitals(key)) == [ToUpper(key[0])] + rest;
        if rest != [] {
          SpaceBeforeCapitalsStart(key[1..]);
        }
        assert ([ToUpper(key[0])] + rest)[1..] == rest;
      }
    }
  }

  /** formatKey: a space before every capital, then the first character upper-cased, so
      "travelStyle" becomes "Travel Style". */
  function FormatKey(key: string): (r: string)
    ensures |r| == |key| + CountUpper(key)
    ensures forall i :: 1 <= i < |r| && IsAsciiUpper(r[i]) ==> r[i - 1] == ' '
    ensures key != [] && 'a' <= key[0] <= 'z' ==>
              r[0] == ToUpper(key[0]) && DropSpaceBeforeCapitals(r) == [r[0]] + key[1..]
    ensures key != [] && IsAsciiUpper(key[0]) ==> r[0] == ' '
    ensures DropSpaceBeforeCapitals(r) == UpperFirst(key)
  {
    SpaceBeforeCapitalsShape(key);
    LowerStartRecovered(key);
    UpperFirstRecovered(key);
    UpperFirst(SpaceBeforeCapitals(key))
  }

  /** Spaces are inserted piece by piece. */
  lemma {:induction false} SpaceBeforeCapitalsAppend(a: string, b: string)
    ensures SpaceBeforeCapitals(a + b) == SpaceBeforeCapitals(a) + SpaceBeforeCapitals(b)
  {
    if a == [] {
      assert a + b == b;
    } else {
      assert (a + b)[0] == a[0];
      assert (a + b)[1..] == a[1..] + b;
      SpaceBeforeCapitalsAppend(a[1..], b);
      var head := if IsAsciiUpper(a[0]) then [' ', a[0]] else [a[0]];
      assert SpaceBeforeCapitals(a + b) == head + (SpaceBeforeCapitals(a[1..]) + SpaceBeforeCapitals(b));
    }
  }

  /** Without capitals nothing is inserted. */
  lemma {:induction false} NoCapitalsUnchanged(s: string)
    requires forall i :: 0 <= i < |s| ==> !IsAsciiUpper(s[i])
    ensures SpaceBeforeCapitals(s) == s
  {
    if s != [] {
      NoCapitalsUnchanged(s[1..]);
    }
  }

  // ---------------------------------------------------------------------------
  // calculateTrendPercentage

  datatype Trend = Increment | Decrement | NoChange

  datatype TrendResult = TrendResult(trend: Trend, percentage: real)

  function Abs(x: real): real {
    if x < 0.0 then -x else x
  }

  function Sign(t: Trend): real {
    match t
    case Increment => 1.0
    case Decrement => -1.0
    case NoChange => 0.0
  }

  /** calculateTrendPercentage over exact reals (no floating-point rounding). */
  function CalculateTrendPercentage(thisMonth: real, lastMonth: real): (r: TrendResult)
    ensures r.percentage >= 0.0
    ensures lastMonth == 0.0 ==>
              r == if thisMonth == 0.0 then TrendResult(NoChange, 0.0) else TrendResult(Increment, 100.0)
    ensures lastMonth != 0.0 ==>
              (r.trend == Increment <==> thisMonth > lastMonth)
              && (r.trend == Decrement <==> thisMonth < lastMonth)
              && (r.trend == NoChange <==> thisMonth == lastMonth)
    ensures lastMonth != 0.0 ==> r.percentage == Abs(thisMonth - lastMonth) / Abs(lastMonth) * 100.0
    ensures thisMonth == lastMonth ==> r == TrendResult(NoChange, 0.0)
  {
    if lastMonth == 0.0 then
      (if thisMonth == 0.0 then TrendResult(NoChange, 0.0) else TrendResult(Increment, 100.0))
    else
      var change := thisMonth - lastMonth;
      var percentage := Abs((change / lastMonth) * 100.0);
      assert percentage == Abs(change) / Abs(lastMonth) * 100.0;
      if change > 0.0 then TrendResult(Increment, percentage)
      else if change < 0.0 then TrendResult(Decrement, percentage)
      else TrendResult(NoChange, 0.0)
  }

  /** The trend and percentage determine this month's count from last month's: applying the
      signed percentage to last month gives this month back. */
  lemma TrendReconstructs(thisMonth: real, lastMonth: real)
    requires lastMonth != 0.0
    ensures var r := CalculateTrendPercentage(thisMonth, lastMonth);
            thisMonth == lastMonth + Sign(r.trend) * r.percentage * Abs(lastMonth) / 100.0
  {
    var r := CalculateTrendPercentage(thisMonth, lastMonth);
    var change := thisMonth - lastMonth;
    assert r.percentage * Abs(lastMonth) / 100.0 == Abs(change);
  }

  // ---------------------------------------------------------------------------
  // parseMarkdownToJson

  const FenceOpen: string := "```json\n"
  const FenceClose: string := "\n```"

  predicate OccursAt(text: string, pat: string, i: nat) {
    i + |pat| <= |text| && text[i..i + |pat|] == pat
  }

  /** The leftmost occurrence of `pat` in `text` at or after `from`. */
  function FindFrom(text: string, pat: string, from: nat): (r: Option<nat>)
    requires pat != []
    decreases |text| - from
    ensures r.Some? ==> from <= r.value && OccursAt(text, pat, r.value)
    ensures r.Some? ==> forall i :: from <= i < r.value ==> !OccursAt(text, pat, i)
    ensures r.None? ==> forall i :: from <= i ==> !OccursAt(text, pat, i)
  {
    if from + |pat| > |text| then None
    else if OccursAt(text, pat, from) then Some(from)
    else FindFrom(text, pat, from + 1)
  }

  /** A match of /```json\n([\s\S]+?)\n```/ that opens at `i` and closes at `j`; the
      captured group is text[i + 8 .. j], at least one character long. */
  predicate FenceMatch(text: string, i: nat, j: nat) {
    OccursAt(text, FenceOpen, i) && i + |FenceOpen| + 1 <= j && OccursAt(text, FenceClose, j)
  }

  /** The captured group of the regular expression: the leftmost opening fence and the
      nearest closing fence after it that leaves a non-empty body. */
  function FenceBody(text: string): Option<string> {
    match FindFrom(text, FenceOpen, 0)
    case None => None
    case Some(i) =>
      match FindFrom(text, FenceClose, i + |FenceOpen| + 1)
      case None => None
      case Some(j) => Some(text[i + |FenceOpen|..j])
  }

  /** FenceBody follows the regular expression's semantics: there is a body exactly when
      some match exists, and then it is the body of the match that starts leftmost and,
      among those, ends first (the lazy `+?`). */
  lemma FenceBodyIsLeftmostLazyMatch(text: string)
    ensures FenceBody(text).Some? <==> exists i: nat, j: nat :: FenceMatch(text, i, j)
    ensures FenceBody(text).Some? ==>
              exists i: nat, j: nat :: FenceMatch(text, i, j) && FenceBody(text).value == text[i + |FenceOpen|..j]
                && forall i': nat, j': nat :: FenceMatch(text, i', j') ==> i < i' || (i == i' && j <= j')
  {
    var open := FindFrom(text, FenceOpen, 0);
    if open.Some? {
      var i := open.value;
      var close := FindFrom(text, FenceClose, i + |FenceOpen| + 1);
      if close.Some? {
        var j := close.value;
        assert FenceMatch(text, i, j);
        assert forall i': nat, j': nat :: FenceMatch(text, i', j') ==> i < i' || (i == i' && j <= j');
      } else {
        assert forall i': nat, j': nat :: !FenceMatch(text, i', j');
      }
    } else {
      assert forall i': nat, j': nat :: !FenceMatch(text, i', j');
    }
  }

  /** parseMarkdownToJson: JSON.parse (the oracle `parse`) of the fence body; null (JNull)
      when there is no fence or the body does not parse. */
  function ParseMarkdownToJson(markdownText: string, parse: string -> Option<Json>): (r: Json)
    ensures FenceBody(markdownText).None? ==> r == JNull
    ensures FenceBody(markdownText).Some? && parse(FenceBody(markdownText).value).None? ==> r == JNull
    ensures FenceBody(markdownText).Some? && parse(FenceBody(markdownText).value).Some? ==>
              r == parse(FenceBody(markdownText).value).value
    ensures FenceBody(markdownText).Some? ==> r == ParseTripData(FenceBody(markdownText).value, parse)
  {
    match FenceBody(markdownText)
    case None => JNull
    case Some(body) => parse(body).GetOr(JNull)
  }

  /** parseTripData: JSON.parse of a stored trip detail, null (JNull) when it does not parse. */
  function ParseTripData(jsonString: string, parse: string -> Option<Json>): (r: Json)
    ensures parse(jsonString).None? ==> r == JNull
    ensures parse(jsonString).Some? ==> r == parse(jsonString).value
  {
    parse(jsonString).GetOr(JNull)
  }
}
