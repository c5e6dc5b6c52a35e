/**
 * Removal of terminal colour codes from tsec's output
 * (src/tsecValidation.ts:35): a global `replace` of
 *   [\u001b\u009b][[()#;?]*(?:[0-9]{1,4}(?:;[0-9]{0,4})*)?[0-9A-ORZcf-nqry=><]
 * by the empty string. The matcher follows the regular expression engine's
 * backtracking order: greedy repetitions try their longest run first and
 * give characters back one at a time.
 */
module Ansi {
  import opened Wrappers
  import opened JsStrings

  /** `[\u001b\u009b]`: ESC or the eight-bit CSI. */
  predicate IsIntroducer(c: char) { c == '\U{1B}' || c == '\U{9B}' }

  /** `[[()#;?]` */
  predicate IsPrefixChar(c: char) { c == '[' || c == '(' || c == ')' || c == '#' || c == ';' || c == '?' }

  /** `[0-9A-ORZcf-nqry=><]` */
  predicate IsFinalChar(c: char)
  {
    IsDigit(c) || ('A' <= c <= 'O') || c == 'R' || c == 'Z' || c == 'c' || ('f' <= c <= 'n')
    || c == 'q' || c == 'r' || c == 'y' || c == '=' || c == '>' || c == '<'
  }

  /** How many digits, at most `cap`, start at `q`. */
  function DigitRun(s: string, q: nat, cap: nat): (n: nat)
    requires q <= |s|
    ensures n <= cap && q + n <= |s|
    decreases cap
  {
    if cap == 0 || q == |s| || !IsDigit(s[q]) then 0 else 1 + DigitRun(s, q + 1, cap - 1)
  }

  /** How many characters of `[[()#;?]` start at `q`. */
  function PrefixRun(s: string, q: nat): (n: nat)
    requires q <= |s|
    ensures q + n <= |s|
    decreases |s| - q
  {
    if q == |s| || !IsPrefixChar(s[q]) then 0 else 1 + PrefixRun(s, q + 1)
  }

  /** The final character at `q`; the match then ends after it. */
  function MatchFinal(s: string, q: nat): (r: Option<nat>)
    ensures r.Some? ==> r.value == q + 1 <= |s|
  {
    if q < |s| && IsFinalChar(s[q]) then Some(q + 1) else None
  }

  /** `(?:;[0-9]{0,4})*` then the final character, from `q`: one more group first, none last. */
  function MatchGroups(s: string, q: nat): (r: Option<nat>)
    requires q <= |s|
    ensures r.Some? ==> q < r.value <= |s|
    decreases |s| - q, 1, 0
  {
    var another := if q < |s| && s[q] == ';' then MatchGroupDigits(s, q + 1, DigitRun(s, q + 1, 4)) else None;
    if another.Some? then another else MatchFinal(s, q)
  }

  /** The digits of one `;` group: `d` of them first, then fewer, down to none. */
  function MatchGroupDigits(s: string, p: nat, d: nat): (r: Option<nat>)
    requires p + d <= |s|
    ensures r.Some? ==> p < r.value <= |s|
    decreases |s| - p + 1, 0, d
  {
    var rest := MatchGroups(s, p + d);
    if rest.Some? then rest else if d == 0 then None else MatchGroupDigits(s, p, d - 1)
  }

  /** `[0-9]{1,4}` with `d` digits first, then fewer, each followed by the groups. */
  function MatchLeadDigits(s: string, p: nat, d: nat): (r: Option<nat>)
    requires p + d <= |s|
    ensures r.Some? ==> p < r.value <= |s|
    decreases d
  {
    if d == 0 then None
    else
      var rest := MatchGroups(s, p + d);
      if rest.Some? then rest else MatchLeadDigits(s, p, d - 1)
  }

  /** The optional number part then the final character, from `p`. */
  function MatchBody(s: string, p: nat): (r: Option<nat>)
    requires p <= |s|
    ensures r.Some? ==> p < r.value <= |s|
  {
    var numbered := MatchLeadDigits(s, p, DigitRun(s, p, 4));
    if numbered.Some? then numbered else MatchFinal(s, p)
  }

  /** `[[()#;?]*` taking `k` characters first, then fewer, down to none. */
  function MatchPrefixed(s: string, p: nat, k: nat): (r: Option<nat>)
    requires p + k <= |s|
    ensures r.Some? ==> p < r.value <= |s|
    decreases k
  {
    var body := MatchBody(s, p + k);
    if body.Some? then body else if k == 0 then None else MatchPrefixed(s, p, k - 1)
  }

  /** Where the first match starting at `i` ends, if one starts there. */
  function MatchAt(s: string, i: nat): (r: Option<nat>)
    requires i < |s|
    ensures r.Some? ==> IsIntroducer(s[i]) && i + 2 <= r.value <= |s|
  {
    if IsIntroducer(s[i]) then MatchPrefixed(s, i + 1, PrefixRun(s, i + 1)) else None
  }

  /** The text from `i` on with every match removed, scanning left to right. */
  function StripFrom(s: string, i: nat): (r: string)
    requires i <= |s|
    ensures |r| <= |s| - i
    decreases |s| - i
  {
    if i == |s| then ""
    else match MatchAt(s, i)
      case Some(e) => StripFrom(s, e)
      case None => [s[i]] + StripFrom(s, i + 1)
  }

  /** `text.replace(<colour-code pattern>/g, '')` */
  function StripAnsi(text: string): (stripped: string)
    ensures |stripped| <= |text|
  {
    StripFrom(text, 0)
  }

  /** Text with neither introducer is left as it is. */
  lemma {:induction false} StripFromPlain(s: string, i: nat)
    requires i <= |s|
    requires forall k :: i <= k < |s| ==> !IsIntroducer(s[k])
    ensures StripFrom(s, i) == s[i..]
    decreases |s| - i
  {
    if i < |s| {
      StripFromPlain(s, i + 1);
      assert [s[i]] + s[i + 1..] == s[i..];
    }
  }

  /** Stripping changes nothing in text that holds no ESC or CSI character. */
  lemma {:induction false} StripAnsiIdentity(text: string)
    requires forall k :: 0 <= k < |text| ==> !IsIntroducer(text[k])
    ensures StripAnsi(text) == text
  {
    StripFromPlain(text, 0);
  }

  /** ESC[96m, the code that turns on bright cyan. */
  const Cyan: string := "\U{1B}[96m"

  /** ESC[0m, the code that resets all attributes. */
  const Reset: string := "\U{1B}[0m"

  /** ESC[96m at `i`: one prefix character, two digits, then the final `m`. */
  lemma {:induction false} CyanMatched(s: string, i: nat)
    requires i + 5 <= |s| && s[i..i + 5] == Cyan
    ensures MatchAt(s, i) == Some(i + 5)
  {
    assert s[i] == s[i..i + 5][0] == '\U{1B}';
    assert s[i + 1] == s[i..i + 5][1] == '[';
    assert s[i + 2] == s[i..i + 5][2] == '9';
    assert s[i + 3] == s[i..i + 5][3] == '6';
    assert s[i + 4] == s[i..i + 5][4] == 'm';
    assert PrefixRun(s, i + 1) == 1;
    assert DigitRun(s, i + 2, 4) == 2;
    assert MatchGroups(s, i + 4) == Some(i + 5);
    assert MatchLeadDigits(s, i + 2, 2) == Some(i + 5);
  }

  /** ESC[0m at `i`: one prefix character, one digit, then the final `m`. */
  lemma {:induction false} ResetMatched(s: string, i: nat)
    requires i + 4 <= |s| && s[i..i + 4] == Reset
    ensures MatchAt(s, i) == Some(i + 4)
  {
    assert s[i] == s[i..i + 4][0] == '\U{1B}';
    assert s[i + 1] == s[i..i + 4][1] == '[';
    assert s[i + 2] == s[i..i + 4][2] == '0';
    assert s[i + 3] == s[i..i + 4][3] == 'm';
    assert PrefixRun(s, i + 1) == 1;
    assert DigitRun(s, i + 2, 4) == 1;
    assert MatchGroups(s, i + 3) == Some(i + 4);
  }

  /**
   * Stripping a coloured word, as tsec prints file names: ESC[96m, the word,
   * ESC[0m leaves the word.
   */
  lemma {:induction false} StripColouredWord(word: string)
    requires forall k :: 0 <= k < |word| ==> !IsIntroducer(word[k])
    ensures StripAnsi(Cyan + word + Reset) == word
  {
    var s := Cyan + word + Reset;
    var e := |Cyan| + |word|;
    assert s[..5] == Cyan && s[e..] == Reset;
    SkipCyan(s);
    SkipTrailingReset(s, e);
    forall k | 5 <= k < e ensures !IsIntroducer(s[k]) {
      assert s[k] == word[k - 5];
    }
    StripFromPrefix(s, 5, e);
    assert s[5..e] == word;
  }

  /** A leading cyan code is dropped. */
  lemma {:induction false} SkipCyan(s: string)
    requires 5 <= |s| && s[..5] == Cyan
    ensures StripFrom(s, 0) == StripFrom(s, 5)
  {
    CyanMatched(s, 0);
  }

  /** A trailing reset code leaves nothing. */
  lemma {:induction false} SkipTrailingReset(s: string, e: nat)
    requires e + 4 == |s| && s[e..] == Reset
    ensures StripFrom(s, e) == ""
  {
    ResetMatched(s, e);
    assert StripFrom(s, e) == StripFrom(s, |s|);
  }

  /** Plain characters from `i` up to `j` are kept as they are. */
  lemma {:induction false} StripFromPrefix(s: string, i: nat, j: nat)
    requires i <= j <= |s|
    requires forall k :: i <= k < j ==> !IsIntroducer(s[k])
    ensures StripFrom(s, i) == s[i..j] + StripFrom(s, j)
    decreases j - i
  {
    if i < j {
      assert StripFrom(s, i) == [s[i]] + StripFrom(s, i + 1) by {
        assert MatchAt(s, i) == None;
      }
      StripFromPrefix(s, i + 1, j);
      assert s[i..j] == [s[i]] + s[i + 1..j];
    }
  }
}
