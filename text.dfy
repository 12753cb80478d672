/** The string operations the shop applies to codes and SKUs: JavaScript's
    `toUpperCase` (on ASCII letters) and the regular-expression replacements
    `replace(/\s+/g, '-')` and `replace(/\s+/g, '')`. */
module Text {

  /** A character matched by the regular-expression class `\s`: the
      ECMAScript WhiteSpace and LineTerminator characters. */
  predicate IsSpace(c: char) {
    || c == '\t' || c == '\n' || c == '\U{000B}' || c == '\U{000C}' || c == '\r'
    || c == ' ' || c == '\U{00A0}' || c == '\U{1680}'
    || ('\U{2000}' <= c <= '\U{200A}')
    || c == '\U{2028}' || c == '\U{2029}' || c == '\U{202F}' || c == '\U{205F}'
    || c == '\U{3000}' || c == '\U{FEFF}'
  }

  predicate HasNoSpace(s: string) {
    forall i :: 0 <= i < |s| ==> !IsSpace(s[i])
  }

  predicate IsLowerLetter(c: char) {
    'a' <= c <= 'z'
  }

  function UpperChar(c: char): (u: char)
    ensures !IsLowerLetter(u)
    ensures IsLowerLetter(c) ==> u as int == c as int - 32
    ensures !IsLowerLetter(c) ==> u == c
  {
    if IsLowerLetter(c) then (c as int - 32) as char else c
  }

  /** `s.toUpperCase()`, for the ASCII letters. */
  function ToUpper(s: string): (r: string)
    ensures |r| == |s|
    ensures forall i :: 0 <= i < |s| ==> r[i] == UpperChar(s[i])
  {
    seq(|s|, i requires 0 <= i < |s| => UpperChar(s[i]))
  }

  predicate IsUpperCase(s: string) {
    forall i :: 0 <= i < |s| ==> !IsLowerLetter(s[i])
  }

  /** Upper-casing yields an upper-case string and changes nothing more a
      second time: it is idempotent, and the identity on upper-case input. */
  lemma ToUpperIsUpper(s: string)
    ensures IsUpperCase(ToUpper(s))
    ensures ToUpper(ToUpper(s)) == ToUpper(s)
    ensures IsUpperCase(s) ==> ToUpper(s) == s
  {
  }

  /** `s` with its leading run of whitespace removed. */
  function DropSpaces(s: string): (r: string)
    ensures |r| <= |s|
    ensures r == s[|s| - |r|..]
    ensures |r| > 0 ==> !IsSpace(r[0])
    ensures forall i :: 0 <= i < |s| - |r| ==> IsSpace(s[i])
  {
    if |s| > 0 && IsSpace(s[0]) then DropSpaces(s[1..]) else s
  }

  /** `s.replace(/\s+/g, '-')`: every maximal run of whitespace becomes one
      dash. */
  function DashRuns(s: string): (r: string)
    ensures HasNoSpace(r)
    decreases |s|
  {
    if |s| == 0 then ""
    else if IsSpace(s[0]) then "-" + DashRuns(DropSpaces(s[1..]))
    else [s[0]] + DashRuns(s[1..])
  }

  /** `s.replace(/\s+/g, '')`: all whitespace removed. */
  function StripSpaces(s: string): (r: string)
    ensures HasNoSpace(r)
    ensures |r| <= |s|
  {
    if |s| == 0 then ""
    else if IsSpace(s[0]) then StripSpaces(s[1..])
    else [s[0]] + StripSpaces(s[1..])
  }

  /** Text without whitespace passes through both replacements unchanged,
      so each is idempotent. */
  lemma {:induction false} NoSpaceUnchanged(s: string)
    requires HasNoSpace(s)
    ensures DashRuns(s) == s && StripSpaces(s) == s
  {
    if |s| > 0 {
      assert HasNoSpace(s[1..]) by {
        assert forall i :: 0 <= i < |s| - 1 ==> s[1..][i] == s[i + 1];
      }
      NoSpaceUnchanged(s[1..]);
      assert s == [s[0]] + s[1..];
    }
  }

  lemma TailHasNoSpace(s: string)
    requires HasNoSpace(s) && |s| > 0
    ensures HasNoSpace(s[1..]) && !IsSpace(s[0])
  {
    assert forall i :: 0 <= i < |s| - 1 ==> s[1..][i] == s[i + 1];
  }

  /** `replace(/\s+/g, '-')` distributes over a concatenation whose left
      part has no whitespace. */
  lemma {:induction false} DashRunsAppendPlain(a: string, b: string)
    requires HasNoSpace(a)
    ensures DashRuns(a + b) == a + DashRuns(b)
  {
    if |a| > 0 {
      TailHasNoSpace(a);
      var ab := a + b;
      assert ab[0] == a[0] && ab[1..] == a[1..] + b;
      DashRunsAppendPlain(a[1..], b);
      calc {
        DashRuns(ab);
        [a[0]] + DashRuns(a[1..] + b);
        [a[0]] + (a[1..] + DashRuns(b));
        { assert a == [a[0]] + a[1..]; }
        a + DashRuns(b);
      }
    } else {
      assert a + b == b;
    }
  }

  /** `replace(/\s+/g, '')` likewise. */
  lemma {:induction false} StripSpacesAppendPlain(a: string, b: string)
    requires HasNoSpace(a)
    ensures StripSpaces(a + b) == a + StripSpaces(b)
  {
    if |a| > 0 {
      TailHasNoSpace(a);
      var ab := a + b;
      assert ab[0] == a[0] && ab[1..] == a[1..] + b;
      StripSpacesAppendPlain(a[1..], b);
      calc {
        StripSpaces(ab);
        [a[0]] + StripSpaces(a[1..] + b);
        [a[0]] + (a[1..] + StripSpaces(b));
        { assert a == [a[0]] + a[1..]; }
        a + StripSpaces(b);
      }
    } else {
      assert a + b == b;
    }
  }

  /** A whitespace run is skipped up to the first character after it. */
  lemma {:induction false} DropSpacesRun(ws: string, b: string)
    requires forall i :: 0 <= i < |ws| ==> IsSpace(ws[i])
    requires |b| == 0 || !IsSpace(b[0])
    ensures DropSpaces(ws + b) == b
  {
    if |ws| > 0 {
      var s := ws + b;
      assert IsSpace(s[0]) && s[1..] == ws[1..] + b;
      DropSpacesRun(ws[1..], b);
    } else {
      assert ws + b == b;
    }
  }

  /** A maximal run of whitespace, of any characters `\s` matches, becomes
      exactly one dash under `replace(/\s+/g, '-')`. */
  lemma DashRunsDropsRun(ws: string, b: string)
    requires |ws| > 0 && forall i :: 0 <= i < |ws| ==> IsSpace(ws[i])
    requires |b| == 0 || !IsSpace(b[0])
    ensures DashRuns(ws + b) == "-" + DashRuns(b)
  {
    var s := ws + b;
    assert IsSpace(s[0]) && s[1..] == ws[1..] + b;
    DropSpacesRun(ws[1..], b);
  }

  /** A whitespace run is deleted and the rest kept under
      `replace(/\s+/g, '')`. */
  lemma {:induction false} StripSpacesDropsRun(ws: string, b: string)
    requires forall i :: 0 <= i < |ws| ==> IsSpace(ws[i])
    ensures StripSpaces(ws + b) == StripSpaces(b)
  {
    if |ws| > 0 {
      var s := ws + b;
      assert IsSpace(s[0]) && s[1..] == ws[1..] + b;
      StripSpacesDropsRun(ws[1..], b);
    } else {
      assert ws + b == b;
    }
  }

  /** Two words separated by a whitespace run become the words joined by
      one dash under `replace(/\s+/g, '-')`. */
  lemma DashRunsJoinsWords(first: string, spaces: string, second: string)
    requires HasNoSpace(first) && HasNoSpace(second) && |second| > 0
    requires |spaces| > 0 && forall i :: 0 <= i < |spaces| ==> IsSpace(spaces[i])
    ensures DashRuns(first + spaces + second) == first + "-" + second
  {
    var s := spaces + second;
    assert first + spaces + second == first + s;
    DashRunsAppendPlain(first, s);
    DashRunsDropsRun(spaces, second);
    NoSpaceUnchanged(second);
    assert first + ("-" + second) == first + "-" + second;
  }
}
