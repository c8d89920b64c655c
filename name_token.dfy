/**
 * Substitution of the `{name}` token, as `text.replace(/\{name\}/g, name)` does it: one pass from
 * left to right over non-overlapping occurrences.
 *
 * JavaScript's `replace` with a string replacement expands `$$`, `$&`, `` $` `` and `$'` inside the
 * replacement, so a recipient name holding a `$` is not inserted verbatim. `ReplaceAsWritten` models
 * that; `SubstituteName` is the literal substitution the pages evidently intend, and is the one the
 * compositor uses.
 */
module NameToken {
  import JsStrings

  const Token: string := "{name}"

  /** An occurrence of the token starts at index `i` of `s`. */
  predicate TokenAt(s: string, i: nat) {
    i + |Token| <= |s| && s[i..i + |Token|] == Token
  }

  lemma TokenStartsWithBrace(s: string, i: nat)
    ensures TokenAt(s, i) ==> s[i] == '{'
  {
    if TokenAt(s, i) {
      assert s[i..i + |Token|][0] == s[i];
    }
  }

  predicate HasToken(s: string) {
    exists i: nat :: i < |s| && TokenAt(s, i)
  }

  /**
   * The replacement text for one match, as `GetSubstitution` of ECMAScript builds it for a pattern
   * without capture groups: `$$` is `$`, `$&` the match, `` $` `` the text before the match, `$'` the
   * text after it; any other `$` stays as it is.
   */
  function Expand(t: string, matched: string, before: string, after: string): (r: string)
    ensures '$' !in t ==> r == t
    decreases |t|
  {
    if |t| == 0 then []
    else if t[0] == '$' && |t| >= 2 && t[1] == '$' then "$" + Expand(t[2..], matched, before, after)
    else if t[0] == '$' && |t| >= 2 && t[1] == '&' then matched + Expand(t[2..], matched, before, after)
    else if t[0] == '$' && |t| >= 2 && t[1] == '`' then before + Expand(t[2..], matched, before, after)
    else if t[0] == '$' && |t| >= 2 && t[1] == '\'' then after + Expand(t[2..], matched, before, after)
    else [t[0]] + Expand(t[1..], matched, before, after)
  }

  /** The scan of `replace(/\{name\}/g, name)` from index `i` of the original string `s`. */
  function ReplaceFromAsWritten(s: string, i: nat, name: string): (r: string)
    requires i <= |s|
    ensures '$' !in name ==> r == SubstituteName(s[i..], name)
    decreases |s| - i
  {
    if TokenAt(s, i) then
      var r := Expand(name, Token, s[..i], s[i + |Token|..]) + ReplaceFromAsWritten(s, i + |Token|, name);
      assert '$' !in name ==> r == SubstituteName(s[i..], name) by {
        assert TokenAt(s[i..], 0);
        assert s[i..][|Token|..] == s[i + |Token|..];
      }
      r
    else if i < |s| then
      var r := [s[i]] + ReplaceFromAsWritten(s, i + 1, name);
      assert '$' !in name ==> r == SubstituteName(s[i..], name) by {
        assert !TokenAt(s[i..], 0);
        assert s[i..][1..] == s[i + 1..];
      }
      r
    else []
  }

  /** `s.replace(/\{name\}/g, name)` as JavaScript evaluates it. */
  function ReplaceAsWritten(s: string, name: string): string {
    ReplaceFromAsWritten(s, 0, name)
  }

  /** Every occurrence of the token, left to right and non-overlapping, replaced by `name` verbatim. */
  function SubstituteName(s: string, name: string): string
    decreases |s|
  {
    if TokenAt(s, 0) then name + SubstituteName(s[|Token|..], name)
    else if |s| > 0 then [s[0]] + SubstituteName(s[1..], name)
    else []
  }

  /** For a name without `$`, the page's `replace` is exactly the literal substitution. */
  lemma AsWrittenAgreesWithoutDollar(s: string, name: string)
    requires '$' !in name
    ensures ReplaceAsWritten(s, name) == SubstituteName(s, name)
  {
    assert s[0..] == s;
  }

  /** Two names that `replace` mangles: `$&` brings the token back, `$$` loses a dollar. */
  lemma AsWrittenExpandsDollarPatterns()
    ensures ReplaceAsWritten(Token, "$&") == Token
    ensures SubstituteName(Token, "$&") == "$&"
    ensures ReplaceAsWritten(Token, "Ke$$ha") == "Ke$ha"
    ensures SubstituteName(Token, "Ke$$ha") == "Ke$$ha"
  {
    MatchPatternBringsTokenBack();
    DoubleDollarLosesOne();
  }

  lemma MatchPatternBringsTokenBack()
    ensures ReplaceAsWritten(Token, "$&") == Token
  {
    assert TokenAt(Token, 0);
    assert Token[|Token|..] == [];
    assert Token[..0] == [];
    assert "$&"[2..] == [];
    assert Expand("$&", Token, [], []) == Token + Expand([], Token, [], []);
  }

  lemma DoubleDollarLosesOne()
    ensures ReplaceAsWritten(Token, "Ke$$ha") == "Ke$ha"
  {
    assert TokenAt(Token, 0);
    assert Token[|Token|..] == [];
    assert Token[..0] == [];
    assert "a"[1..] == [];
    assert Expand("a", Token, [], []) == "a";
    assert "ha"[1..] == "a";
    assert Expand("ha", Token, [], []) == "ha";
    assert "$$ha"[2..] == "ha";
    assert Expand("$$ha", Token, [], []) == "$ha";
    assert "e$$ha"[1..] == "$$ha";
    assert Expand("e$$ha", Token, [], []) == "e$ha";
    assert "Ke$$ha"[1..] == "e$$ha";
    assert Expand("Ke$$ha", Token, [], []) == "Ke$ha";
  }

  /** A string without the token is left alone. */
  lemma {:induction false} SubstituteWithoutToken(s: string, name: string)
    requires !HasToken(s)
    ensures SubstituteName(s, name) == s
    decreases |s|
  {
    if |s| > 0 {
      assert !HasToken(s[1..]) by {
        if HasToken(s[1..]) {
          var i: nat :| i < |s[1..]| && TokenAt(s[1..], i);
          assert s[1..][i..i + |Token|] == s[i + 1..i + 1 + |Token|];
          assert TokenAt(s, i + 1);
        }
      }
      SubstituteWithoutToken(s[1..], name);
    }
  }

  /** A string without '{' holds no token. */
  lemma NoBraceNoToken(s: string)
    requires '{' !in s
    ensures !HasToken(s)
  {
    if HasToken(s) {
      var i: nat :| i < |s| && TokenAt(s, i);
      TokenStartsWithBrace(s, i);
    }
  }

  /** Only the first character of the token is '{'. */
  lemma TokenBraceOnlyFirst(d: nat)
    requires 0 < d < |Token|
    ensures Token[d] != '{'
  {
  }

  /** A token starting at 0 lies inside `p` or runs into `q` past its first character. */
  lemma NoTokenAcrossBoundary(p: string, q: string)
    requires |p| > 0 && !HasToken(p) && (q == [] || q[0] == '{')
    ensures !TokenAt(p + q, 0)
  {
    if TokenAt(p + q, 0) {
      if |Token| <= |p| {
        assert (p + q)[..|Token|] == p[..|Token|];
        assert TokenAt(p, 0);
        assert false;
      } else {
        assert |p + q| >= |Token| > |p|;
        assert (p + q)[..|Token|][|p|] == q[0];
        TokenBraceOnlyFirst(|p|);
        assert false;
      }
    }
  }

  /** Dropping the first character keeps a string free of the token. */
  lemma NoTokenInTail(p: string)
    requires |p| > 0 && !HasToken(p)
    ensures !HasToken(p[1..])
  {
    if HasToken(p[1..]) {
      var i: nat :| i < |p[1..]| && TokenAt(p[1..], i);
      assert p[1..][i..i + |Token|] == p[i + 1..i + 1 + |Token|];
      assert TokenAt(p, i + 1);
    }
  }

  /**
   * No token can start inside a prefix `p` that holds none, when what follows `p` is empty or
   * starts with '{': the token's later characters hold no '{', so no match can straddle the boundary.
   */
  lemma {:induction false} SubstituteAfterPlainPrefix(p: string, q: string, name: string)
    requires !HasToken(p) && (q == [] || q[0] == '{')
    ensures SubstituteName(p + q, name) == p + SubstituteName(q, name)
    decreases |p|
  {
    if |p| == 0 {
      assert p + q == q;
    } else {
      var pq := p + q;
      NoTokenAcrossBoundary(p, q);
      assert SubstituteName(pq, name) == [pq[0]] + SubstituteName(pq[1..], name);
      assert pq[0] == p[0] && pq[1..] == p[1..] + q;
      NoTokenInTail(p);
      SubstituteAfterPlainPrefix(p[1..], q, name);
      assert [p[0]] + (p[1..] + SubstituteName(q, name)) == p + SubstituteName(q, name);
    }
  }

  /**
   * Every occurrence is replaced and the name is inserted verbatim, never substituted again: for
   * pieces that hold no token themselves (any other '{' allowed), substituting into the pieces joined
   * by the token gives the pieces joined by the name, whatever the name holds (the token included).
   */
  lemma {:induction false} SubstituteJoinedPieces(pieces: seq<string>, name: string)
    requires |pieces| >= 1
    requires forall k :: 0 <= k < |pieces| ==> !HasToken(pieces[k])
    ensures SubstituteName(JsStrings.Join(pieces, Token), name) == JsStrings.Join(pieces, name)
    decreases |pieces|
  {
    if |pieces| == 1 {
      SubstituteAfterPlainPrefix(pieces[0], [], name);
      assert pieces[0] + [] == pieces[0];
    } else {
      var rest := JsStrings.Join(pieces[1..], Token);
      SubstituteAfterPlainPrefix(pieces[0], Token + rest, name);
      assert pieces[0] + Token + rest == pieces[0] + (Token + rest);
      assert TokenAt(Token + rest, 0) by {
        assert (Token + rest)[..|Token|] == Token;
      }
      assert (Token + rest)[|Token|..] == rest;
      SubstituteJoinedPieces(pieces[1..], name);
    }
  }

  /** A brace around the token stays: "{{name}}" with the name "Ada" becomes "{Ada}". */
  lemma BracedTokenExample()
    ensures SubstituteName("{{name}}", "Ada") == "{Ada}"
  {
    var pieces := ["{", "}"];
    assert JsStrings.Join(pieces, Token) == "{{name}}";
    assert JsStrings.Join(pieces, "Ada") == "{Ada}";
    SubstituteJoinedPieces(pieces, "Ada");
  }

  /** Substituting the token by itself changes nothing: one pass, no rescanning of the inserted text. */
  lemma {:induction false} SubstituteTokenByItself(s: string)
    ensures SubstituteName(s, Token) == s
    decreases |s|
  {
    if TokenAt(s, 0) {
      SubstituteTokenByItself(s[|Token|..]);
      assert s == s[..|Token|] + s[|Token|..];
    } else if |s| > 0 {
      SubstituteTokenByItself(s[1..]);
    }
  }
}
