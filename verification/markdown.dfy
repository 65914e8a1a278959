/**
  MarkdownV2 escaping: eighteen characters, the backslash first, each get a
  backslash in front. The source chains eighteen `replace` calls; the model
  keeps that chain and proves it equal to a per-character map.
 */
module Markdown {
  import opened Wrappers

  const Backslash: char := '\\'

  /** The special characters in the order the source replaces them. */
  const Specials: seq<char> :=
    ['\\', '`', '*', '_', '{', '}', '[', ']', '<', '>', '(', ')', '#', '+', '-', '.', '!', '|']

  lemma SpecialsDistinct()
    ensures |Specials| == 18
    ensures Specials[0] == Backslash
    ensures forall i, j :: 0 <= i < j < |Specials| ==> Specials[i] != Specials[j]
  {
  }

  /** `s.replace(c, "\\" + c)` for one character `c`. */
  function ReplaceChar(s: string, c: char): (r: string)
    ensures |r| == |s| + Count(s, c)
  {
    if |s| == 0 then []
    else (if s[0] == c then [Backslash, c] else [s[0]]) + ReplaceChar(s[1..], c)
  }

  function Count(s: string, c: char): nat {
    if |s| == 0 then 0 else (if s[0] == c then 1 else 0) + Count(s[1..], c)
  }

  /** The source's chain of replacements, applied to the first `k` special characters. */
  function Chain(s: string, k: nat): string
    requires k <= |Specials|
  {
    if k == 0 then s else ReplaceChar(Chain(s, k - 1), Specials[k - 1])
  }

  /** `escapeMarkdown` on a nullable string: null gives the empty string. */
  function EscapeMarkdown(s: Option<string>): string {
    match s
    case None => ""
    case Some(t) => Chain(t, |Specials|)
  }

  // ---------------------------------------------------------------------------
  // The reference definition: each character escaped on its own.
  // ---------------------------------------------------------------------------

  predicate IsSpecial(c: char) {
    c in Specials
  }

  /** One character escaped against the first `k` special characters. */
  function Piece(c: char, k: nat): string
    requires k <= |Specials|
  {
    if c in Specials[..k] then [Backslash, c] else [c]
  }

  function EscapeUpTo(s: string, k: nat): string
    requires k <= |Specials|
  {
    if |s| == 0 then [] else Piece(s[0], k) + EscapeUpTo(s[1..], k)
  }

  /** The per-character escape of the whole special set. */
  function Escape(s: string): string {
    EscapeUpTo(s, |Specials|)
  }

  function SpecialCount(s: string): nat {
    if |s| == 0 then 0 else (if IsSpecial(s[0]) then 1 else 0) + SpecialCount(s[1..])
  }

  /** Undo an escape: drop the backslash in front of every escaped character. */
  function Unescape(s: string): string {
    if |s| == 0 then []
    else if s[0] == Backslash && |s| >= 2 then [s[1]] + Unescape(s[2..])
    else [s[0]] + Unescape(s[1..])
  }

  // ---------------------------------------------------------------------------
  // Proofs.
  // ---------------------------------------------------------------------------

  lemma {:induction false} ReplaceCharConcat(a: string, b: string, c: char)
    ensures ReplaceChar(a + b, c) == ReplaceChar(a, c) + ReplaceChar(b, c)
  {
    if |a| == 0 {
      assert a + b == b;
    } else {
      assert (a + b)[1..] == a[1..] + b;
      ReplaceCharConcat(a[1..], b, c);
    }
  }

  /** Replacing the next special character extends the escape by that character. */
  lemma {:induction false} ReplaceStep(s: string, k: nat)
    requires k < |Specials|
    ensures ReplaceChar(EscapeUpTo(s, k), Specials[k]) == EscapeUpTo(s, k + 1)
  {
    SpecialsDistinct();
    if |s| > 0 {
      var d := Specials[k];
      var c := s[0];
      ReplaceCharConcat(Piece(c, k), EscapeUpTo(s[1..], k), d);
      ReplaceStep(s[1..], k);
      assert Specials[..k + 1] == Specials[..k] + [d];
      if c in Specials[..k] {
        var i :| 0 <= i < k && Specials[i] == c;
        assert c != d;
        assert Backslash == Specials[0] != d;
        assert ReplaceChar([Backslash, c], d) == [Backslash, c] by {
          assert [Backslash, c][1..] == [c];
        }
      } else {
        assert ReplaceChar([c], d) == (if c == d then [Backslash, c] else [c]);
      }
    }
  }

  lemma {:induction false} EscapeUpToZero(s: string)
    ensures EscapeUpTo(s, 0) == s
  {
    if |s| > 0 {
      EscapeUpToZero(s[1..]);
      assert s == [s[0]] + s[1..];
    }
  }

  lemma {:induction false} ChainIsEscapeUpTo(s: string, k: nat)
    requires k <= |Specials|
    ensures Chain(s, k) == EscapeUpTo(s, k)
  {
    if k == 0 {
      EscapeUpToZero(s);
    } else {
      ChainIsEscapeUpTo(s, k - 1);
      ReplaceStep(s, k - 1);
    }
  }

  /** The chained replacements escape every character on its own; inserted backslashes are never escaped again. */
  lemma EscapeMarkdownIsPerCharacter(s: string)
    ensures EscapeMarkdown(Some(s)) == Escape(s)
  {
    ChainIsEscapeUpTo(s, |Specials|);
  }

  /** The escaped string grows by exactly one backslash per special character. */
  lemma {:induction false} EscapeLength(s: string)
    ensures |Escape(s)| == |s| + SpecialCount(s)
  {
    if |s| > 0 {
      EscapeLength(s[1..]);
      assert Specials[..|Specials|] == Specials;
    }
  }

  /** A string without special characters is returned unchanged. */
  lemma {:induction false} EscapePlain(s: string)
    requires forall i :: 0 <= i < |s| ==> !IsSpecial(s[i])
    ensures Escape(s) == s
  {
    if |s| > 0 {
      EscapePlain(s[1..]);
      assert Specials[..|Specials|] == Specials;
      assert s == [s[0]] + s[1..];
    }
  }

  /** Removing the backslash before each escaped character recovers the original. */
  lemma {:induction false} UnescapeEscape(s: string)
    ensures Unescape(Escape(s)) == s
  {
    if |s| > 0 {
      assert Specials[..|Specials|] == Specials;
      var c := s[0];
      UnescapeEscape(s[1..]);
      var rest := Escape(s[1..]);
      if IsSpecial(c) {
        assert Escape(s) == [Backslash, c] + rest;
        assert ([Backslash, c] + rest)[2..] == rest;
      } else {
        assert Escape(s) == [c] + rest;
        assert c != Backslash;
        assert ([c] + rest)[1..] == rest;
      }
      assert s == [c] + s[1..];
    }
  }

  lemma EscapeMarkdownNull()
    ensures EscapeMarkdown(None) == ""
  {
  }
}
