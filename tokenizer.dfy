/** The two string operations the input loop applies to a typed line:
    `String.Split()` with no arguments (split on every white-space character,
    keeping empty tokens) and `String.Replace("/", "")` (drop every slash). */
module Tokenizer {

  /** Char.IsWhiteSpace: the Unicode space, line and paragraph separators,
      U+0009 to U+000D and U+0085. */
  predicate IsWhiteSpace(c: char) {
    c == ' ' || ('\t' <= c <= '\r') || c == '\U{0085}' || c == '\U{00A0}' ||
    c == '\U{1680}' || ('\U{2000}' <= c <= '\U{200A}') || c == '\U{2028}' ||
    c == '\U{2029}' || c == '\U{202F}' || c == '\U{205F}' || c == '\U{3000}'
  }

  predicate NoWhiteSpace(t: string) {
    forall i :: 0 <= i < |t| ==> !IsWhiteSpace(t[i])
  }

  function WhiteSpaceCount(s: string): nat {
    if s == [] then 0 else (if IsWhiteSpace(s[0]) then 1 else 0) + WhiteSpaceCount(s[1..])
  }

  /** Index of the first white-space character of `s`, or |s| when there is none. */
  function FirstWhiteSpace(s: string): (k: nat)
    ensures k <= |s|
    ensures NoWhiteSpace(s[..k])
    ensures k < |s| ==> IsWhiteSpace(s[k])
  {
    if s == [] then 0
    else if IsWhiteSpace(s[0]) then 0
    else 1 + FirstWhiteSpace(s[1..])
  }

  /** The white-space characters of `s`, in order: the separators Split
      consumes. */
  function Seps(s: string): (seps: string)
    ensures |seps| == WhiteSpaceCount(s)
    ensures forall i :: 0 <= i < |seps| ==> IsWhiteSpace(seps[i])
  {
    if s == [] then []
    else (if IsWhiteSpace(s[0]) then [s[0]] else []) + Seps(s[1..])
  }

  /** The tokens written back with `seps[i]` between token i and token i+1. */
  function JoinWith(words: seq<string>, seps: string): string
    requires |words| == |seps| + 1
  {
    if seps == [] then words[0] else words[0] + [seps[0]] + JoinWith(words[1..], seps[1..])
  }

  /** `s.Split()`: every white-space character separates two tokens, so the
      result has one token more than `s` has white-space characters, and
      consecutive separators give empty tokens (see SplitSeps for what the
      tokens contain). */
  function Split(s: string): (words: seq<string>)
    ensures |words| == WhiteSpaceCount(s) + 1
    ensures forall k :: 0 <= k < |words| ==> NoWhiteSpace(words[k])
  {
    if s == [] then [""]
    else
      var rest := Split(s[1..]);
      if IsWhiteSpace(s[0]) then [""] + rest
      else [[s[0]] + rest[0]] + rest[1..]
  }

  /** Putting each separator back between its two tokens rebuilds the line,
      so the tokens are exactly the white-space-free stretches of `s`. */
  lemma {:induction false} SplitSeps(s: string)
    ensures JoinWith(Split(s), Seps(s)) == s
  {
    if s != [] {
      var rest := Split(s[1..]);
      SplitSeps(s[1..]);
      assert s == [s[0]] + s[1..];
      if IsWhiteSpace(s[0]) {
        assert Split(s) == [""] + rest;
        assert Seps(s) == [s[0]] + Seps(s[1..]);
        assert ([""] + rest)[1..] == rest;
      } else {
        var words := [[s[0]] + rest[0]] + rest[1..];
        assert Split(s) == words;
        assert Seps(s) == Seps(s[1..]);
        assert words[1..] == rest[1..];
      }
    }
  }

  /** The tokens written back with one space between neighbours. */
  function JoinSpaces(words: seq<string>): string
    requires |words| >= 1
  {
    if |words| == 1 then words[0] else words[0] + " " + JoinSpaces(words[1..])
  }

  /** The first token is the text up to the first white-space character. */
  lemma {:induction false} SplitHead(s: string)
    ensures Split(s)[0] == s[..FirstWhiteSpace(s)]
  {
    if s != [] && !IsWhiteSpace(s[0]) {
      SplitHead(s[1..]);
    }
  }

  lemma {:induction false} SplitPrefix(t: string, s: string)
    requires NoWhiteSpace(t)
    ensures Split(t + s) == [t + Split(s)[0]] + Split(s)[1..]
  {
    if t != [] {
      assert (t + s)[1..] == t[1..] + s;
      SplitPrefix(t[1..], s);
      assert [t[0]] + (t[1..] + Split(s)[0]) == t + Split(s)[0];
    } else {
      var w := Split(s);
      assert t + s == s;
      assert t + w[0] == w[0];
      assert w == [w[0]] + w[1..];
    }
  }

  /** Splitting tokens that were joined with single spaces gives them back. */
  lemma {:induction false} SplitJoinSpaces(words: seq<string>)
    requires |words| >= 1
    requires forall k :: 0 <= k < |words| ==> NoWhiteSpace(words[k])
    ensures Split(JoinSpaces(words)) == words
  {
    if |words| == 1 {
      SplitPrefix(words[0], "");
      assert words[0] + "" == words[0];
    } else {
      var tail := JoinSpaces(words[1..]);
      SplitJoinSpaces(words[1..]);
      assert words[0] + " " + tail == words[0] + (" " + tail);
      SplitPrefix(words[0], " " + tail);
      assert (" " + tail)[1..] == tail;
      assert IsWhiteSpace((" " + tail)[0]);
      assert Split(" " + tail) == [""] + words[1..];
      assert words[0] + "" == words[0];
      assert words == [words[0]] + words[1..];
    }
  }

  lemma {:induction false} SepsPrefix(t: string, s: string)
    requires NoWhiteSpace(t)
    ensures Seps(t + s) == Seps(s)
  {
    if t != [] {
      assert (t + s)[1..] == t[1..] + s;
      SepsPrefix(t[1..], s);
    } else {
      assert t + s == s;
    }
  }

  /** The converse of Split's round trip: white-space-free tokens joined by
      any white-space separators split back into the same tokens, and the
      separators are the line's white space. */
  lemma {:induction false} SplitJoinWith(words: seq<string>, seps: string)
    requires |words| == |seps| + 1
    requires forall k :: 0 <= k < |words| ==> NoWhiteSpace(words[k])
    requires forall i :: 0 <= i < |seps| ==> IsWhiteSpace(seps[i])
    ensures Split(JoinWith(words, seps)) == words
    ensures Seps(JoinWith(words, seps)) == seps
  {
    if seps == [] {
      SplitPrefix(words[0], "");
      SepsPrefix(words[0], "");
      assert words[0] + "" == words[0];
    } else {
      var tail := JoinWith(words[1..], seps[1..]);
      SplitJoinWith(words[1..], seps[1..]);
      var rest := [seps[0]] + tail;
      assert words[0] + [seps[0]] + tail == words[0] + rest;
      SplitPrefix(words[0], rest);
      SepsPrefix(words[0], rest);
      assert rest[1..] == tail;
      assert Split(rest) == [""] + words[1..];
      assert Seps(rest) == [seps[0]] + seps[1..];
      assert words[0] + "" == words[0];
      assert words == [words[0]] + words[1..];
      assert seps == [seps[0]] + seps[1..];
    }
  }

  /** Joining the tokens of a line whose only white space is the plain space
      gives the line back: no character is lost or invented by Split. */
  lemma {:induction false} JoinSpacesSplit(s: string)
    requires forall i :: 0 <= i < |s| && IsWhiteSpace(s[i]) ==> s[i] == ' '
    ensures JoinSpaces(Split(s)) == s
  {
    if s != [] {
      var rest := Split(s[1..]);
      JoinSpacesSplit(s[1..]);
      if IsWhiteSpace(s[0]) {
        assert Split(s) == [""] + rest;
        assert ([""] + rest)[1..] == rest;
        assert s == [s[0]] + s[1..];
      } else {
        var w := [[s[0]] + rest[0]] + rest[1..];
        assert Split(s) == w;
        if |rest| == 1 {
          assert s == [s[0]] + s[1..];
        } else {
          assert w[1..] == rest[1..];
          assert JoinSpaces(rest) == rest[0] + " " + JoinSpaces(rest[1..]);
          assert s == [s[0]] + s[1..];
        }
      }
    }
  }

  /** `s.Replace("/", "")`: every slash is removed, not only a leading one;
      the other characters are kept, and in their order
      (see StripSlashesAppend). */
  function StripSlashes(s: string): (r: string)
    ensures '/' !in r
    ensures multiset(r) == multiset(s)['/' := 0]
  {
    if s == [] then []
    else
      var rest := StripSlashes(s[1..]);
      assert s == [s[0]] + s[1..];
      if s[0] == '/' then rest else [s[0]] + rest
  }

  lemma {:induction false} StripSlashesAppend(a: string, b: string)
    ensures StripSlashes(a + b) == StripSlashes(a) + StripSlashes(b)
  {
    if a == [] {
      assert a + b == b;
    } else {
      assert (a + b)[1..] == a[1..] + b;
      StripSlashesAppend(a[1..], b);
    }
  }

  /** A name without slashes is its own stripped form. */
  lemma {:induction false} StripSlashesKeeps(s: string)
    requires '/' !in s
    ensures StripSlashes(s) == s
  {
    if s != [] {
      StripSlashesKeeps(s[1..]);
      assert s == [s[0]] + s[1..];
    }
  }

  /** Two spaces in a row give an empty token between them. */
  lemma SplitKeepsEmptyTokens()
    ensures Split("/login  alice") == ["/login", "", "alice"]
  {
    var words := ["/login", "", "alice"];
    assert NoWhiteSpace(words[0]) && NoWhiteSpace(words[1]) && NoWhiteSpace(words[2]);
    assert JoinSpaces(words) == "/login  alice" by {
      assert JoinSpaces(words[2..]) == "alice";
      assert JoinSpaces(words[1..]) == "" + " " + "alice";
    }
    SplitJoinSpaces(words);
  }

  /** Inner slashes go too: "/a/b" names the command "ab". */
  lemma StripSlashesInner()
    ensures StripSlashes("/a/b") == "ab"
  {
  }

  lemma {:induction false} StripSlashesIdempotent(s: string)
    ensures StripSlashes(StripSlashes(s)) == StripSlashes(s)
  {
    StripSlashesKeeps(StripSlashes(s));
  }
}
