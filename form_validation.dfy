/**
 * Email validation of the form (src/formValidation.js): the input's value is
 * trimmed and tested against /^[^\s@]+@[^\s@]+\.[^\s@]{2,}$/, and the submit
 * wrapper carries the `is-active` class exactly when the test succeeds.
 */
module FormValidation {

  /**
   * JavaScript's whitespace as used by both `\s` and String.prototype.trim:
   * WhiteSpace (tab, vertical tab, form feed, space, no-break space, the
   * byte-order mark and the other space separators) and LineTerminator.
   */
  predicate IsSpace(c: char)
  {
    || c == '\t' || c == '\U{000B}' || c == '\U{000C}' || c == ' '
    || c == '\U{00A0}' || c == '\U{FEFF}'
    || c == '\n' || c == '\r' || c == '\U{2028}' || c == '\U{2029}'
    || c == '\U{1680}' || ('\U{2000}' <= c <= '\U{200A}')
    || c == '\U{202F}' || c == '\U{205F}' || c == '\U{3000}'
  }

  predicate AllSpace(s: string)
  {
    forall k :: 0 <= k < |s| ==> IsSpace(s[k])
  }

  /** The number of whitespace characters that start `s`. */
  function LeadingSpaces(s: string): (n: nat)
    ensures n <= |s|
  {
    if |s| == 0 || !IsSpace(s[0]) then 0 else 1 + LeadingSpaces(s[1..])
  }

  /** The number of whitespace characters that end `s`. */
  function TrailingSpaces(s: string): (n: nat)
    ensures n <= |s|
  {
    if |s| == 0 || !IsSpace(s[|s| - 1]) then 0 else 1 + TrailingSpaces(s[..|s| - 1])
  }

  /** The character after the leading run is not whitespace. */
  lemma {:induction false} LeadingSpacesStop(s: string)
    requires LeadingSpaces(s) < |s|
    ensures !IsSpace(s[LeadingSpaces(s)])
  {
    if IsSpace(s[0]) {
      var n := LeadingSpaces(s);
      LeadingSpacesStop(s[1..]);
      assert s[n] == s[1..][n - 1];
    }
  }

  /** The character before the trailing run is not whitespace. */
  lemma {:induction false} TrailingSpacesStop(s: string)
    requires TrailingSpaces(s) < |s|
    ensures !IsSpace(s[|s| - 1 - TrailingSpaces(s)])
  {
    if IsSpace(s[|s| - 1]) {
      var n := TrailingSpaces(s);
      var init := s[..|s| - 1];
      TrailingSpacesStop(init);
      assert s[|s| - 1 - n] == init[|init| - 1 - (n - 1)];
    }
  }

  /**
   * String.prototype.trim: `s` without its leading and trailing whitespace.
   * The result is empty exactly when `s` is all whitespace, and otherwise
   * neither starts nor ends with whitespace.
   */
  function Trim(s: string): (r: string)
    ensures |r| <= |s|
    ensures r == "" <==> AllSpace(s)
    ensures r != "" ==> !IsSpace(r[0]) && !IsSpace(r[|r| - 1])
  {
    if AllSpace(s) then
      ""
    else
      TrimBounds(s);
      LeadingSpacesStop(s);
      TrailingSpacesStop(s);
      s[LeadingSpaces(s)..|s| - TrailingSpaces(s)]
  }

  /** Off an all-whitespace value, the two runs of whitespace leave something between them. */
  lemma TrimBounds(s: string)
    requires !AllSpace(s)
    ensures LeadingSpaces(s) < |s| - TrailingSpaces(s)
  {
    var i :| 0 <= i < |s| && !IsSpace(s[i]);
    LeadingSpacesBelow(s, i);
    TrailingSpacesAbove(s, i);
  }

  /** Off an all-whitespace value, trim is the slice between the two runs of whitespace. */
  lemma {:induction false} TrimIsSlice(s: string)
    requires !AllSpace(s)
    ensures LeadingSpaces(s) < |s| - TrailingSpaces(s)
    ensures Trim(s) == s[LeadingSpaces(s)..|s| - TrailingSpaces(s)]
  {
    TrimBounds(s);
  }

  /** The leading run counted by LeadingSpaces is all whitespace. */
  lemma {:induction false} LeadingSpacesAreSpace(s: string)
    ensures AllSpace(s[..LeadingSpaces(s)])
  {
    if |s| > 0 && IsSpace(s[0]) {
      LeadingSpacesAreSpace(s[1..]);
      var n := LeadingSpaces(s);
      forall k | 0 <= k < n
        ensures IsSpace(s[..n][k])
      {
        if k > 0 {
          assert s[..n][k] == s[1..][..n - 1][k - 1];
        }
      }
    }
  }

  /** The trailing run counted by TrailingSpaces is all whitespace. */
  lemma {:induction false} TrailingSpacesAreSpace(s: string)
    ensures AllSpace(s[|s| - TrailingSpaces(s)..])
  {
    if |s| > 0 && IsSpace(s[|s| - 1]) {
      var init := s[..|s| - 1];
      TrailingSpacesAreSpace(init);
      var n := TrailingSpaces(s);
      var tail, initTail := s[|s| - n..], init[|init| - (n - 1)..];
      forall k | 0 <= k < n
        ensures IsSpace(tail[k])
      {
        if k < n - 1 {
          assert tail[k] == initTail[k];
        }
      }
    }
  }

  /**
   * Trim removes only whitespace: `s` is its trim with whitespace before and
   * after it.
   */
  lemma TrimStripsWhitespace(s: string)
    ensures exists w1: string, w2: string :: (AllSpace(w1) && AllSpace(w2) && s == w1 + Trim(s) + w2)
  {
    if AllSpace(s) {
      assert AllSpace(s) && AllSpace("") && s == s + Trim(s) + "";
    } else {
      TrimIsSlice(s);
      LeadingSpacesAreSpace(s);
      TrailingSpacesAreSpace(s);
      var lo, hi := LeadingSpaces(s), |s| - TrailingSpaces(s);
      assert s == s[..lo] + s[lo..hi] + s[hi..];
    }
  }

  /** Trim as the slice between two given bounds that are the runs of whitespace. */
  lemma TrimOfCounts(t: string, lo: int, hi: int)
    requires !AllSpace(t) && LeadingSpaces(t) == lo && |t| - TrailingSpaces(t) == hi
    ensures 0 <= lo < hi <= |t| && Trim(t) == t[lo..hi]
  {
    TrimIsSlice(t);
  }

  /** Two values whose trims are the same slice have the same trim. */
  lemma TrimOfMiddle(t: string, s: string, a: int, lo: int, hi: int)
    requires !AllSpace(t) && !AllSpace(s)
    requires LeadingSpaces(s) == lo && |s| - TrailingSpaces(s) == hi
    requires LeadingSpaces(t) == a + lo && |t| - TrailingSpaces(t) == a + hi
    requires 0 <= lo <= hi <= |s| && 0 <= a + lo <= a + hi <= |t|
    requires t[a + lo..a + hi] == s[lo..hi]
    ensures Trim(t) == Trim(s)
  {
    TrimOfCounts(t, a + lo, a + hi);
    TrimOfCounts(s, lo, hi);
  }

  /** The leading run of whitespace stops at or before any other character. */
  lemma {:induction false} LeadingSpacesBelow(s: string, i: int)
    requires 0 <= i < |s| && !IsSpace(s[i])
    ensures LeadingSpaces(s) <= i
  {
    if IsSpace(s[0]) {
      assert s[1..][i - 1] == s[i];
      LeadingSpacesBelow(s[1..], i - 1);
    }
  }

  /** The trailing run of whitespace starts after any other character. */
  lemma {:induction false} TrailingSpacesAbove(s: string, i: int)
    requires 0 <= i < |s| && !IsSpace(s[i])
    ensures i < |s| - TrailingSpaces(s)
  {
    if IsSpace(s[|s| - 1]) {
      var init := s[..|s| - 1];
      assert init[i] == s[i];
      TrailingSpacesAbove(init, i);
    }
  }

  /** The whitespace of an all-whitespace prefix adds to the leading count. */
  lemma {:induction false} LeadingOfSpacePrefix(w: string, x: string)
    requires AllSpace(w)
    ensures LeadingSpaces(w + x) == |w| + LeadingSpaces(x)
  {
    if w == "" {
      assert w + x == x;
    } else {
      assert (w + x)[0] == w[0];
      assert (w + x)[1..] == w[1..] + x;
      LeadingOfSpacePrefix(w[1..], x);
    }
  }

  /** Past a character that is not whitespace, what follows does not matter. */
  lemma {:induction false} LeadingOfNonSpacePrefix(x: string, y: string)
    requires !AllSpace(x)
    ensures LeadingSpaces(x + y) == LeadingSpaces(x)
  {
    assert (x + y)[0] == x[0];
    if IsSpace(x[0]) {
      assert (x + y)[1..] == x[1..] + y;
      assert !AllSpace(x[1..]) by {
        var k :| 0 <= k < |x| && !IsSpace(x[k]);
        assert x[1..][k - 1] == x[k];
      }
      LeadingOfNonSpacePrefix(x[1..], y);
    }
  }

  /** The whitespace of an all-whitespace suffix adds to the trailing count. */
  lemma {:induction false} TrailingOfSpaceSuffix(x: string, w: string)
    requires AllSpace(w)
    ensures TrailingSpaces(x + w) == |w| + TrailingSpaces(x)
  {
    if w == "" {
      assert x + w == x;
    } else {
      var t := x + w;
      assert t[|t| - 1] == w[|w| - 1];
      assert t[..|t| - 1] == x + w[..|w| - 1];
      TrailingOfSpaceSuffix(x, w[..|w| - 1]);
    }
  }

  /** Before a character that is not whitespace, what precedes does not matter. */
  lemma {:induction false} TrailingOfNonSpaceSuffix(y: string, x: string)
    requires !AllSpace(x)
    ensures TrailingSpaces(y + x) == TrailingSpaces(x)
  {
    var t := y + x;
    assert t[|t| - 1] == x[|x| - 1];
    if IsSpace(x[|x| - 1]) {
      var init := x[..|x| - 1];
      assert t[..|t| - 1] == y + init;
      assert !AllSpace(init) by {
        var k :| 0 <= k < |x| && !IsSpace(x[k]);
        assert init[k] == x[k];
      }
      TrailingOfNonSpaceSuffix(y, init);
    }
  }

  /** A slice of the middle of a padded value is the same slice of the value. */
  lemma SliceOfPadded(before: string, s: string, after: string, lo: int, hi: int)
    requires 0 <= lo <= hi <= |s|
    ensures (before + s + after)[|before| + lo..|before| + hi] == s[lo..hi]
  {
    var t := before + s + after;
    var u, v := t[|before| + lo..|before| + hi], s[lo..hi];
    forall k | 0 <= k < |u| ensures u[k] == v[k] {
      assert t[|before| + lo + k] == s[lo + k];
    }
  }

  /** Padding adds its own length to the two runs of whitespace of a value that is not all whitespace. */
  lemma PaddedCounts(before: string, s: string, after: string)
    requires AllSpace(before) && AllSpace(after) && !AllSpace(s)
    ensures LeadingSpaces(before + s + after) == |before| + LeadingSpaces(s)
    ensures TrailingSpaces(before + s + after) == |after| + TrailingSpaces(s)
    ensures !AllSpace(before + s + after)
  {
    var t := before + s + after;
    assert !AllSpace(t) by {
      var i :| 0 <= i < |s| && !IsSpace(s[i]);
      assert t[|before| + i] == s[i];
    }
    assert t == before + (s + after);
    assert !AllSpace(s + after) by {
      var i :| 0 <= i < |s| && !IsSpace(s[i]);
      assert (s + after)[i] == s[i];
    }
    LeadingOfSpacePrefix(before, s + after);
    LeadingOfNonSpacePrefix(s, after);
    TrailingOfSpaceSuffix(before + s, after);
    TrailingOfNonSpaceSuffix(before, s);
  }

  lemma AllSpaceConcat(before: string, s: string, after: string)
    requires AllSpace(before) && AllSpace(s) && AllSpace(after)
    ensures AllSpace(before + s + after)
  {
    var t := before + s + after;
    forall k | 0 <= k < |t| ensures IsSpace(t[k]) {
      if k < |before| { assert t[k] == before[k]; }
      else if k < |before| + |s| { assert t[k] == s[k - |before|]; }
      else { assert t[k] == after[k - |before| - |s|]; }
    }
  }

  /** Whitespace around a value does not change what trim returns. */
  lemma TrimIgnoresPadding(before: string, s: string, after: string)
    requires AllSpace(before) && AllSpace(after)
    ensures Trim(before + s + after) == Trim(s)
  {
    if AllSpace(s) {
      AllSpaceConcat(before, s, after);
    } else {
      TrimOfPaddedValue(before, s, after);
    }
  }

  lemma TrimOfPaddedValue(before: string, s: string, after: string)
    requires AllSpace(before) && AllSpace(after) && !AllSpace(s)
    ensures Trim(before + s + after) == Trim(s)
  {
    var t := before + s + after;
    var lo, hi := LeadingSpaces(s), |s| - TrailingSpaces(s);
    PaddedCounts(before, s, after);
    TrimBounds(s);
    SliceOfPadded(before, s, after, lo, hi);
    TrimOfMiddle(t, s, |before|, lo, hi);
  }

  /** A value that neither starts nor ends with whitespace is its own trim. */
  lemma TrimOfNoSpace(s: string)
    requires |s| > 0 && !IsSpace(s[0]) && !IsSpace(s[|s| - 1])
    ensures Trim(s) == s
  {
    assert !AllSpace(s);
    TrimIsSlice(s);
    assert s[0..|s|] == s;
  }

  /** Trimming twice is trimming once. */
  lemma TrimIdempotent(s: string)
    ensures Trim(Trim(s)) == Trim(s)
  {
    if Trim(s) != "" {
      TrimOfNoSpace(Trim(s));
    }
  }

  // ---- the pattern -----------------------------------------------------------

  /** `[^\s@]`: neither whitespace nor '@'. */
  predicate InClass(c: char)
  {
    !IsSpace(c) && c != '@'
  }

  predicate AllInClass(t: string)
  {
    forall k :: 0 <= k < |t| ==> InClass(t[k])
  }

  /**
   * `s` splits as L '@' A '.' B with the '@' at i and the '.' at j, where
   * L = s[..i] and A = s[i+1..j] are non-empty, B = s[j+1..] has at least
   * two characters, and none of them contains whitespace or '@'.
   */
  predicate MatchesAt(s: string, i: int, j: int)
  {
    && 0 < i && i + 1 < j && j + 2 < |s|
    && s[i] == '@' && s[j] == '.'
    && AllInClass(s[..i]) && AllInClass(s[i + 1..j]) && AllInClass(s[j + 1..])
  }

  /**
   * emailPattern.test(s) for /^[^\s@]+@[^\s@]+\.[^\s@]{2,}$/. No match is
   * shorter than six characters ("a@b.co").
   */
  predicate EmailPattern(s: string)
    ensures EmailPattern(s) ==> |s| >= 6
  {
    exists i, j | 0 < i < j < |s| :: MatchesAt(s, i, j)
  }

  /**
   * The value validateEmail judges: the input's value after trim. A valid
   * value keeps at least six characters once trimmed.
   */
  predicate IsValidEmail(value: string)
    ensures IsValidEmail(value) ==> 6 <= |Trim(value)| <= |value|
  {
    EmailPattern(Trim(value))
  }

  /**
   * The pattern holds exactly when the value has no whitespace, exactly one
   * '@', something before it, and a '.' with at least one character between
   * it and the '@' and at least two after it.
   */
  lemma EmailPatternCharacterized(s: string)
    ensures EmailPattern(s) <==>
      && (forall k :: 0 <= k < |s| ==> !IsSpace(s[k]))
      && multiset(s)['@'] == 1
      && exists i, j | 0 < i < j < |s| :: i + 1 < j && j + 2 < |s| && s[i] == '@' && s[j] == '.'
  {
    if EmailPattern(s) {
      var i, j :| 0 < i < j < |s| && MatchesAt(s, i, j);
      OneAt(s, i, j);
      forall k | 0 <= k < |s| ensures !IsSpace(s[k]) {
        if k < i { assert s[k] == s[..i][k]; }
        else if i < k < j { assert s[k] == s[i + 1..j][k - i - 1]; }
        else if k > j { assert s[k] == s[j + 1..][k - j - 1]; }
      }
    }
    if && (forall k :: 0 <= k < |s| ==> !IsSpace(s[k]))
       && multiset(s)['@'] == 1
       && exists i, j | 0 < i < j < |s| :: i + 1 < j && j + 2 < |s| && s[i] == '@' && s[j] == '.'
    {
      var i, j :| 0 < i < j < |s| && i + 1 < j && j + 2 < |s| && s[i] == '@' && s[j] == '.';
      OnlyAt(s, i);
      assert AllInClass(s[..i]) && AllInClass(s[i + 1..j]) && AllInClass(s[j + 1..]) by {
        forall k | 0 <= k < |s| && k != i ensures InClass(s[k]) { }
      }
      assert MatchesAt(s, i, j);
    }
  }

  lemma NoAtCount(t: string)
    requires AllInClass(t)
    ensures multiset(t)['@'] == 0
  {
  }

  /** A value that matches at (i, j) holds its '@' at i and nowhere else. */
  lemma OneAt(s: string, i: int, j: int)
    requires 0 < i < j < |s| && MatchesAt(s, i, j)
    ensures multiset(s)['@'] == 1
  {
    assert s == s[..i] + [s[i]] + s[i + 1..j] + [s[j]] + s[j + 1..];
    NoAtCount(s[..i]);
    NoAtCount(s[i + 1..j]);
    NoAtCount(s[j + 1..]);
  }

  /** With one '@' in all, no position other than i holds one. */
  lemma OnlyAt(s: string, i: int)
    requires 0 <= i < |s| && s[i] == '@' && multiset(s)['@'] == 1
    ensures forall k :: 0 <= k < |s| && k != i ==> s[k] != '@'
  {
    forall k | 0 <= k < |s| && k != i ensures s[k] != '@' {
      var lo, hi := if k < i then k else i, if k < i then i else k;
      assert s == s[..lo] + [s[lo]] + s[lo + 1..hi] + [s[hi]] + s[hi + 1..];
    }
  }

  /** A valid value has exactly one '@' and no whitespace. */
  lemma ValidHasOneAtAndNoSpace(value: string)
    requires IsValidEmail(value)
    ensures multiset(Trim(value))['@'] == 1
    ensures forall k :: 0 <= k < |Trim(value)| ==> !IsSpace(Trim(value)[k])
  {
    EmailPatternCharacterized(Trim(value));
  }

  /** A plain address with a two-letter extension is valid. */
  lemma PlainAddressValid()
    ensures IsValidEmail("a@b.co")
  {
    TrimOfNoSpace("a@b.co");
    assert MatchesAt("a@b.co", 1, 3);
  }

  /** The extension after the last '.' needs two characters. */
  lemma OneLetterExtensionInvalid()
    ensures !IsValidEmail("a@b.c")
  {
    TrimOfNoSpace("a@b.c");
  }

  /** The empty value is invalid. */
  lemma EmptyInvalid()
    ensures !IsValidEmail("")
  {
  }

  /** Surrounding whitespace is trimmed away before the test. */
  lemma PaddedAddressValid()
    ensures IsValidEmail("  a@b.co\n")
  {
    assert "  " + "a@b.co" + "\n" == "  a@b.co\n";
    ValidityIgnoresPadding("  ", "a@b.co", "\n");
    PlainAddressValid();
  }

  /** A second '@' makes the value invalid. */
  lemma TwoAtsInvalid()
    ensures !IsValidEmail("a@b@c.de")
  {
    TrimOfNoSpace("a@b@c.de");
    EmailPatternCharacterized("a@b@c.de");
    assert multiset("a@b@c.de")['@'] == 2;
  }

  /** The domain may hold further dots. */
  lemma DottedDomainValid()
    ensures IsValidEmail("a@b.c.de")
  {
    TrimOfNoSpace("a@b.c.de");
    assert MatchesAt("a@b.c.de", 1, 3);
  }

  /** Leading and trailing whitespace never decide validity. */
  lemma ValidityIgnoresPadding(before: string, value: string, after: string)
    requires AllSpace(before) && AllSpace(after)
    ensures IsValidEmail(before + value + after) == IsValidEmail(value)
  {
    TrimIgnoresPadding(before, value, after);
  }

  // ---- the form state -----------------------------------------------------------

  /** The `.form_input` element: only its current value matters here. */
  class FormInput {
    var value: string

    constructor (value: string)
      ensures this.value == value
    {
      this.value := value;
    }
  }

  /** The `.form_submit_wrapper` element: whether it has the `is-active` class. */
  class SubmitWrapper {
    var isActive: bool

    constructor (isActive: bool)
      ensures this.isActive == isActive
    {
      this.isActive := isActive;
    }
  }

  /** The validation bound to one input and one wrapper by initFormValidation. */
  class EmailValidation {
    const input: FormInput
    const wrapper: SubmitWrapper

    constructor (input: FormInput, wrapper: SubmitWrapper)
      ensures this.input == input && this.wrapper == wrapper
    {
      this.input := input;
      this.wrapper := wrapper;
    }

    /**
     * validateEmail: add `is-active` to the wrapper when the trimmed value
     * is valid, remove it otherwise. The flag depends only on the value,
     * which is not changed, so calling it again changes nothing.
     */
    method ValidateEmail()
      modifies wrapper
      ensures wrapper.isActive == IsValidEmail(input.value)
    {
      var email := Trim(input.value);
      var isValid := EmailPattern(email);
      if isValid {
        wrapper.isActive := true;
      } else {
        wrapper.isActive := false;
      }
    }
  }

  /**
   * initFormValidation: a no-op when the input or the wrapper is missing;
   * otherwise it binds them and runs the initial validation.
   */
  method InitFormValidation(input: FormInput?, wrapper: SubmitWrapper?) returns (v: EmailValidation?)
    modifies wrapper
    ensures v == null <==> input == null || wrapper == null
    ensures v == null && wrapper != null ==> wrapper.isActive == old(wrapper.isActive)
    ensures v != null ==>
      && fresh(v) && v.input == input && v.wrapper == wrapper
      && wrapper.isActive == IsValidEmail(input.value)
  {
    if input == null || wrapper == null {
      return null;
    }
    v := new EmailValidation(input, wrapper);
    v.ValidateEmail();
  }
}
