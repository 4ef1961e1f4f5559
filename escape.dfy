/** Escaping of signal paths: Tcl reads `[` and `]` as command substitution,
    so each bracket in a signal path is sent with a backslash before it. */
module Escape {

  predicate IsBracket(c: char) {
    c == '[' || c == ']'
  }

  /** What one input character becomes in the escaped signal. */
  function EscapeChar(c: char): seq<char> {
    if IsBracket(c) then ['\\', c] else [c]
  }

  /** The escaped form of a signal path, character by character. */
  function Escaped(s: string): string {
    if s == [] then [] else EscapeChar(s[0]) + Escaped(s[1..])
  }

  function BracketCount(s: string): nat {
    if s == [] then 0 else (if IsBracket(s[0]) then 1 else 0) + BracketCount(s[1..])
  }

  /** Deletes every backslash that stands immediately before a bracket. */
  function Unescaped(t: string): string
    decreases |t|
  {
    if |t| >= 2 && t[0] == '\\' && IsBracket(t[1]) then [t[1]] + Unescaped(t[2..])
    else if t == [] then []
    else [t[0]] + Unescaped(t[1..])
  }

  /** The loop of `escape_signal`: a backslash goes out before each bracket, then
      the character itself. */
  method EscapeSignal(signal: string) returns (r: string)
    ensures r == Escaped(signal)
  {
    r := "";
    var i := 0;
    while i < |signal|
      invariant 0 <= i <= |signal|
      invariant r == Escaped(signal[..i])
    {
      var ch := signal[i];
      if IsBracket(ch) {
        r := r + ['\\'];
      }
      r := r + [ch];
      EscapedAppend(signal[..i], [ch]);
      assert signal[..i + 1] == signal[..i] + [ch];
      i := i + 1;
    }
    assert signal[..i] == signal;
  }

  lemma {:induction false} EscapedAppend(a: string, b: string)
    ensures Escaped(a + b) == Escaped(a) + Escaped(b)
  {
    if a == [] {
      assert a + b == b;
    } else {
      assert (a + b)[1..] == a[1..] + b;
      EscapedAppend(a[1..], b);
    }
  }

  /** Each bracket adds exactly one character. */
  lemma {:induction false} EscapedLength(s: string)
    ensures |Escaped(s)| == |s| + BracketCount(s)
  {
    if s != [] {
      EscapedLength(s[1..]);
    }
  }

  /** An escaped signal never starts with a bracket. */
  lemma EscapedHead(s: string)
    requires s != []
    ensures Escaped(s) != [] && !IsBracket(Escaped(s)[0])
  {
  }

  /** Removing the inserted backslashes gives the input back, backslashes
      already in the input included. */
  lemma {:induction false} UnescapeEscaped(s: string)
    ensures Unescaped(Escaped(s)) == s
  {
    if s != [] {
      var t := Escaped(s);
      UnescapeEscaped(s[1..]);
      if IsBracket(s[0]) {
        assert t[2..] == Escaped(s[1..]);
      } else {
        assert t[1..] == Escaped(s[1..]);
        if s[1..] != [] {
          EscapedHead(s[1..]);
        }
      }
    }
  }

  /** Two different signals never escape to the same string. */
  lemma EscapedInjective(a: string, b: string)
    requires Escaped(a) == Escaped(b)
    ensures a == b
  {
    UnescapeEscaped(a);
    UnescapeEscaped(b);
  }

  /** A signal comes back unchanged exactly when it holds no bracket. */
  lemma {:induction false} EscapedUnchanged(s: string)
    ensures Escaped(s) == s <==> BracketCount(s) == 0
  {
    EscapedLength(s);
    if s != [] && BracketCount(s) == 0 {
      EscapedUnchanged(s[1..]);
    }
  }

  /** Every bracket of the output has a backslash right before it. */
  lemma {:induction false} BracketsPreceded(s: string)
    ensures forall k :: 0 < k < |Escaped(s)| && IsBracket(Escaped(s)[k]) ==> Escaped(s)[k - 1] == '\\'
    ensures Escaped(s) != [] ==> !IsBracket(Escaped(s)[0])
  {
    if s != [] {
      BracketsPreceded(s[1..]);
      var head, t := EscapeChar(s[0]), Escaped(s);
      forall k | 0 < k < |t| && IsBracket(t[k])
        ensures t[k - 1] == '\\'
      {
        if k >= |head| {
          var j := k - |head|;
          assert t[k] == Escaped(s[1..])[j];
        }
      }
    }
  }
}
