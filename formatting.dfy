/**
 * The indentation detector of src/utils.ts.
 *
 * `detectJsonFormatting` runs the regular expression `^{?([\t ]*)"` with the
 * multiline flag over the text of a JSON file and turns the captured run of
 * blanks into the `space` argument of `JSON.stringify`. Here the expression is
 * written out as a scan over positions: `MatchesWith` is what the pattern
 * means, `MatchAt` and `FirstMatch` are the scan, and the lemmas tie them
 * together in both directions.
 */
module Formatting {
  import opened Wrappers

  /** The indentation token: the serialiser's default (`undefined`), a number
      of spaces, or the one-character string "\t". */
  datatype Indent = Default | Spaces(width: nat) | Tab

  /** A match of the pattern: where it starts and what group 1 captured. */
  datatype Match = Match(start: nat, group: string)

  /** The characters after which `^` matches under the `m` flag. */
  predicate IsLineTerminator(c: char) {
    c == '\n' || c == '\r' || c == '\U{2028}' || c == '\U{2029}'
  }

  /** The character class `[\t ]`. */
  predicate IsBlank(c: char) {
    c == ' ' || c == '\t'
  }

  predicate AllBlank(g: string) {
    forall k :: 0 <= k < |g| ==> IsBlank(g[k])
  }

  /** `^` with the `m` flag: the start of the text or just after a line terminator. */
  predicate IsLineStart(s: string, i: nat) {
    i == 0 || (i <= |s| && IsLineTerminator(s[i - 1]))
  }

  /** The pattern `^{?([\t ]*)"` matches the text `s` at position `i` with group 1 equal to `g`. */
  ghost predicate MatchesWith(s: string, i: nat, g: string) {
    && i <= |s|
    && IsLineStart(s, i)
    && AllBlank(g)
    && (g + ['"'] <= s[i..] || ['{'] + g + ['"'] <= s[i..])
  }

  ghost predicate NoMatchAt(s: string, i: nat) {
    forall g :: !MatchesWith(s, i, g)
  }

  /** The leftmost match of the pattern starts at `i` and captures `g`. */
  ghost predicate IsFirstMatch(s: string, i: nat, g: string) {
    MatchesWith(s, i, g) && forall i' :: 0 <= i' < i ==> NoMatchAt(s, i')
  }

  /** Length of the longest run of blanks in `s` starting at `j`. */
  function BlankRun(s: string, j: nat): (n: nat)
    requires j <= |s|
    ensures j + n <= |s|
    ensures forall k :: j <= k < j + n ==> IsBlank(s[k])
    ensures j + n == |s| || !IsBlank(s[j + n])
    decreases |s| - j
  {
    if j < |s| && IsBlank(s[j]) then 1 + BlankRun(s, j + 1) else 0
  }

  /** One attempt of the pattern at position `i`; the group when it matches.
      `{?` is greedy and, since `{` is neither blank nor `"`, backtracking over
      it or over the blanks never yields another match. */
  function MatchAt(s: string, i: nat): Option<string>
    requires i <= |s|
  {
    if !IsLineStart(s, i) then None
    else
      var j := if i < |s| && s[i] == '{' then i + 1 else i;
      var k := j + BlankRun(s, j);
      if k < |s| && s[k] == '"' then Some(s[j..k]) else None
  }

  /** A run of blanks followed by `"` at `j` is exactly the maximal run there. */
  lemma BlankRunBeforeQuote(s: string, j: nat, g: string)
    requires j <= |s| && AllBlank(g) && g + ['"'] <= s[j..]
    ensures BlankRun(s, j) == |g|
  {
    var n := BlankRun(s, j);
    forall k | 0 <= k <= |g| ensures s[j + k] == (g + ['"'])[k] {
      assert s[j + k] == s[j..][k];
    }
    assert !IsBlank(s[j + |g|]);
    assert forall k :: j <= k < j + |g| ==> IsBlank(s[k]);
  }

  lemma MatchAtSound(s: string, i: nat)
    requires i <= |s| && MatchAt(s, i).Some?
    ensures MatchesWith(s, i, MatchAt(s, i).value)
  {
  }

  lemma MatchAtComplete(s: string, i: nat, g: string)
    requires MatchesWith(s, i, g)
    ensures MatchAt(s, i) == Some(g)
  {
    var j := if i < |s| && s[i] == '{' then i + 1 else i;
    assert g + ['"'] <= s[j..] by {
      if j == i + 1 {
        assert (g + ['"'])[0] != s[i..][0];
        assert s[j..] == s[i..][1..];
        assert (['{'] + g + ['"'])[1..] == g + ['"'];
      } else {
        assert i < |s|;
        assert (['{'] + g + ['"'])[0] != s[i..][0];
      }
    }
    BlankRunBeforeQuote(s, j, g);
    assert s[j..j + |g|] == (g + ['"'])[..|g|] == g;
    assert s[j + |g|] == s[j..][|g|];
  }

  /** `MatchAt` succeeds with `g` exactly when the pattern matches at `i` capturing `g`. */
  lemma MatchAtExact(s: string, i: nat, g: string)
    requires i <= |s|
    ensures MatchAt(s, i) == Some(g) <==> MatchesWith(s, i, g)
  {
    if MatchesWith(s, i, g) {
      MatchAtComplete(s, i, g);
    }
    if MatchAt(s, i) == Some(g) {
      MatchAtSound(s, i);
    }
  }

  lemma NoMatchWhereMatchAtFails(s: string, i: nat)
    requires i <= |s| && MatchAt(s, i).None?
    ensures NoMatchAt(s, i)
  {
    forall g ensures !MatchesWith(s, i, g) {
      MatchAtExact(s, i, g);
    }
  }

  /** The scan of `String.prototype.match`: try every position from `from` on,
      left to right, and keep the first match. */
  function FirstMatch(s: string, from: nat): (r: Option<Match>)
    requires from <= |s|
    ensures r.Some? ==> from <= r.value.start <= |s| && MatchesWith(s, r.value.start, r.value.group)
    ensures r.Some? ==> forall i :: from <= i < r.value.start ==> NoMatchAt(s, i)
    ensures r.None? ==> forall i :: from <= i <= |s| ==> NoMatchAt(s, i)
    decreases |s| - from
  {
    match MatchAt(s, from)
    case Some(g) =>
      MatchAtExact(s, from, g);
      Some(Match(from, g))
    case None =>
      NoMatchWhereMatchAtFails(s, from);
      if from == |s| then None else FirstMatch(s, from + 1)
  }

  /** The scan finds the leftmost match and its capture. */
  lemma FirstMatchFinds(s: string, i: nat, g: string)
    requires IsFirstMatch(s, i, g)
    ensures FirstMatch(s, 0) == Some(Match(i, g))
  {
    var r := FirstMatch(s, 0);
    assert !NoMatchAt(s, i);
    var m := r.value;
    assert !NoMatchAt(s, m.start);
    MatchAtExact(s, i, g);
    MatchAtExact(s, i, m.group);
  }

  /** `detectJsonFormatting`: group 1 of the first match decides. No match or
      an empty group gives the default; a group starting with a space gives its
      full length (tabs later in it included); one starting with a tab gives a
      single tab, whatever the group's length. */
  function DetectJsonFormatting(text: string): (r: Indent)
    ensures r.Spaces? ==> 1 <= r.width < |text|
    ensures r.Spaces? ==> exists i, g :: IsFirstMatch(text, i, g) && g != [] && g[0] == ' ' && |g| == r.width
    ensures r.Tab? ==> exists i, g :: IsFirstMatch(text, i, g) && g != [] && g[0] == '\t'
    ensures r.Default? ==>
      (forall i :: 0 <= i <= |text| ==> NoMatchAt(text, i)) || exists i :: IsFirstMatch(text, i, [])
  {
    match FirstMatch(text, 0)
    case None => Default
    case Some(m) =>
      assert IsFirstMatch(text, m.start, m.group);
      assert |m.group| < |text| by {
        assert |m.group + ['"']| <= |text[m.start..]|;
      }
      if m.group == [] then Default
      else if m.group[0] == ' ' then Spaces(|m.group|)
      else Tab
  }

  lemma DetectWithoutMatchIsDefault(s: string)
    requires forall i :: 0 <= i <= |s| ==> NoMatchAt(s, i)
    ensures DetectJsonFormatting(s) == Default
  {
    var r := FirstMatch(s, 0);
    assert r.Some? ==> !NoMatchAt(s, r.value.start);
  }

  /** Only the first match counts: an unindented first key line gives the
      default even when later lines are indented. */
  lemma DetectEmptyFirstRunIsDefault(s: string, i: nat)
    requires IsFirstMatch(s, i, [])
    ensures DetectJsonFormatting(s) == Default
  {
    FirstMatchFinds(s, i, []);
  }

  lemma DetectSpaceRunIsWidth(s: string, i: nat, g: string)
    requires IsFirstMatch(s, i, g) && g != [] && g[0] == ' '
    ensures DetectJsonFormatting(s) == Spaces(|g|)
  {
    FirstMatchFinds(s, i, g);
  }

  lemma DetectTabRunIsOneTab(s: string, i: nat, g: string)
    requires IsFirstMatch(s, i, g) && g != [] && g[0] == '\t'
    ensures DetectJsonFormatting(s) == Tab
  {
    FirstMatchFinds(s, i, g);
  }

  /** At most one `{` is skipped: a line starting `{{` never matches there. */
  lemma DoubleBraceNeverMatches(s: string, i: nat)
    requires i + 1 < |s| && s[i] == '{' && s[i + 1] == '{'
    ensures NoMatchAt(s, i)
  {
  }

  /** A brace alone on the first line: that line fails because a line
      terminator follows `{`, and the next line gives the width. */
  lemma ExampleBraceOnOwnLine()
    ensures DetectJsonFormatting("{\n  \"a\": 1\n}") == Spaces(2)
  {
    var s := "{\n  \"a\": 1\n}";
    assert s[0] == '{' && s[1] == '\n' && s[4] == '"';
    assert BlankRun(s, 1) == 0 && BlankRun(s, 2) == 2;
    assert s[2..4] == "  ";
  }

  /** Only the first match counts: the unindented first line wins over the
      indented second one. */
  lemma ExampleCompactFirstLine()
    ensures DetectJsonFormatting("{\"a\":1,\n  \"b\":2}") == Default
  {
    var s := "{\"a\":1,\n  \"b\":2}";
    assert s[0] == '{' && s[1] == '"';
    assert BlankRun(s, 1) == 0;
  }

  /** Two tabs give one tab. */
  lemma ExampleTabsGiveOneTab()
    ensures DetectJsonFormatting("{\n\t\t\"a\": 1\n}") == Tab
  {
    var s := "{\n\t\t\"a\": 1\n}";
    assert s[0] == '{' && s[1] == '\n' && s[4] == '"';
    assert BlankRun(s, 1) == 0 && BlankRun(s, 2) == 2;
    assert s[2..4] == "\t\t";
  }

  /** A run that starts with a space counts its tabs too. */
  lemma ExampleMixedRunCountsAll()
    ensures DetectJsonFormatting("{\n \t\"a\": 1\n}") == Spaces(2)
  {
    var s := "{\n \t\"a\": 1\n}";
    assert s[0] == '{' && s[1] == '\n' && s[4] == '"';
    assert BlankRun(s, 1) == 0 && BlankRun(s, 2) == 2;
    assert s[2..4] == " \t";
  }
}
