/** The NIP-50 search tokenizer of expand.go, and why dropping tokens is safe. */
module SearchTokens {
  import opened Text

  const QUOTE := '"'

  /** s starts with a quote that some later byte closes. */
  predicate OpensPhrase(s: string) {
    s != "" && s[0] == QUOTE && QUOTE in s[1..]
  }

  /** The length of the phrase s starts with, both quotes included. */
  function PhraseLen(s: string): (n: nat)
    requires OpensPhrase(s)
    ensures 2 <= n <= |s|
  {
    IndexOf(s[1..], QUOTE) + 2
  }

  /** Up to the next space that is not inside quotes; an unclosed quote is an ordinary byte. */
  function WordLen(s: string): (n: nat)
    ensures n <= |s|
    decreases |s|
  {
    if s == "" || s[0] == ' ' then 0
    else if OpensPhrase(s) then PhraseLen(s) + WordLen(s[PhraseLen(s)..])
    else 1 + WordLen(s[1..])
  }

  /** A phrase ends with its closing quote even when no space follows. */
  function TokenLen(s: string): (n: nat)
    requires s != "" && s[0] != ' '
    ensures 0 < n <= |s|
  {
    if OpensPhrase(s) then PhraseLen(s) else WordLen(s)
  }

  function Tokens(s: string): seq<string>
    decreases |s|
  {
    if s == "" then []
    else if s[0] == ' ' then Tokens(s[1..])
    else [s[..TokenLen(s)]] + Tokens(s[TokenLen(s)..])
  }

  method SearchTokens(s: string) returns (tokens: seq<string>)
    ensures tokens == Tokens(s)
  {
    tokens := [];
    var i := 0;
    assert s[0..] == s;
    while i < |s|
      invariant 0 <= i <= |s|
      invariant tokens + Tokens(s[i..]) == Tokens(s)
    {
      i := SkipSpaces(s, i);
      if i >= |s| { break; }
      var start := i;
      i := TokenEnd(s, start);
      TakeToken(s, start, i);
      tokens := tokens + [s[start..i]];
    }
    assert s[|s|..] == "";
  }

  method TokenEnd(s: string, start: nat) returns (i: nat)
    requires start < |s| && s[start] != ' '
    ensures i == start + TokenLen(s[start..])
  {
    if s[start] == QUOTE {
      var end := IndexOf(s[start + 1..], QUOTE);
      QuoteAt(s, start);
      if end < |s| - start - 1 { return start + end + 2; }
    }
    i := SkipWord(s, start);
  }

  lemma QuoteAt(s: string, i: nat)
    requires i < |s| && s[i] == QUOTE
    ensures OpensPhrase(s[i..]) <==> IndexOf(s[i + 1..], QUOTE) < |s| - i - 1
    ensures OpensPhrase(s[i..]) ==> PhraseLen(s[i..]) == IndexOf(s[i + 1..], QUOTE) + 2
  {
    assert s[i..][1..] == s[i + 1..];
  }

  lemma TakeToken(s: string, start: nat, end: nat)
    requires start < |s| && s[start] != ' ' && end == start + TokenLen(s[start..])
    ensures end <= |s| && Tokens(s[start..]) == [s[start..end]] + Tokens(s[end..])
  {
    assert s[start..][..end - start] == s[start..end];
    assert s[start..][end - start..] == s[end..];
  }

  method SkipSpaces(s: string, from: nat) returns (i: nat)
    requires from <= |s|
    ensures from <= i <= |s| && (i < |s| ==> s[i] != ' ')
    ensures Tokens(s[i..]) == Tokens(s[from..])
  {
    hide TokenLen;
    i := from;
    while i < |s| && s[i] == ' '
      invariant from <= i <= |s|
      invariant Tokens(s[i..]) == Tokens(s[from..])
    {
      assert s[i..][1..] == s[i + 1..];
      i := i + 1;
    }
  }

  lemma WordStep(s: string, i: nat)
    requires i < |s| && s[i] != ' '
    ensures var n := if OpensPhrase(s[i..]) then PhraseLen(s[i..]) else 1;
            i + n <= |s| && WordLen(s[i..]) == n + WordLen(s[i + n..])
  {
    var n := if OpensPhrase(s[i..]) then PhraseLen(s[i..]) else 1;
    assert s[i..][n..] == s[i + n..];
  }

  method SkipWord(s: string, from: nat) returns (i: nat)
    requires from <= |s|
    ensures i == from + WordLen(s[from..])
  {
    i := from;
    while i < |s| && s[i] != ' '
      invariant from <= i <= |s|
      invariant i + WordLen(s[i..]) == from + WordLen(s[from..])
    {
      WordStep(s, i);
      if s[i] == QUOTE {
        var end := IndexOf(s[i + 1..], QUOTE);
        QuoteAt(s, i);
        if end < |s| - i - 1 {
          i := i + end + 2;
          continue;
        }
      }
      i := i + 1;
    }
  }

  // ----- Dropping tokens does not change how the others read -----

  ghost predicate Subsequence(a: seq<string>, b: seq<string>)
    decreases |b|
  {
    a == [] || (b != [] && ((a[0] == b[0] && Subsequence(a[1..], b[1..])) || Subsequence(a, b[1..])))
  }

  /** Every quote in a word closes inside it. */
  ghost predicate Closed(t: string)
    decreases |t|
  {
    t == "" || (if t[0] == QUOTE then OpensPhrase(t) && Closed(t[PhraseLen(t)..]) else Closed(t[1..]))
  }

  ghost predicate EndsToken(r: string) {
    r == "" || r[0] == ' '
  }

  lemma PhraseLocal(t: string, r: string)
    requires OpensPhrase(t)
    ensures OpensPhrase(t + r) && PhraseLen(t + r) == PhraseLen(t)
  {
    assert (t + r)[1..] == t[1..] + r;
    var i := IndexOf(t[1..], QUOTE);
    assert (t[1..] + r)[i] == QUOTE;
    assert forall k :: 0 <= k < i ==> (t[1..] + r)[k] == t[1..][k];
  }

  /** A part of s that takes in the phrase s starts with starts with that phrase. */
  lemma PhrasePart(s: string, n: nat)
    requires OpensPhrase(s) && PhraseLen(s) <= n <= |s|
    ensures OpensPhrase(s[..n]) && PhraseLen(s[..n]) == PhraseLen(s)
  {
    var p := PhraseLen(s);
    assert s[..n][1..][p - 2] == QUOTE;
    assert forall k :: 0 <= k < p - 2 ==> s[..n][1..][k] == s[1..][k];
  }

  /** A word reads the same whatever follows, unless a quote in what follows would close one left open. */
  lemma {:induction false} WordLocal(t: string, r: string)
    requires WordLen(t) == |t| && EndsToken(r)
    requires Closed(t) || QUOTE !in r
    ensures WordLen(t + r) == |t|
    decreases |t|
  {
    if t == "" {
      assert t + r == r;
    } else if OpensPhrase(t) {
      PhraseLocal(t, r);
      var n := PhraseLen(t);
      assert (t + r)[n..] == t[n..] + r;
      WordLocal(t[n..], r);
    } else {
      assert (t + r)[1..] == t[1..] + r;
      WordLocal(t[1..], r);
    }
  }

  /** Where a word ends in s: whole on its own, then a space or nothing; if a quote stays open none follows. */
  lemma {:induction false} WordEnd(s: string)
    ensures EndsWell(s, WordLen(s))
    decreases |s|
  {
    if s == "" || s[0] == ' ' {
    } else if OpensPhrase(s) {
      WordEnd(s[PhraseLen(s)..]);
      WordEndAfterPhrase(s);
    } else {
      WordEnd(s[1..]);
      WordEndAfterByte(s);
    }
  }

  ghost predicate EndsWell(s: string, n: nat)
    requires n <= |s|
  {
    WordLen(s[..n]) == n && EndsToken(s[n..]) && (Closed(s[..n]) || QUOTE !in s[n..])
  }

  lemma WordEndAfterPhrase(s: string)
    requires OpensPhrase(s) && EndsWell(s[PhraseLen(s)..], WordLen(s[PhraseLen(s)..]))
    ensures EndsWell(s, WordLen(s))
  {
    var p, n := PhraseLen(s), WordLen(s);
    PhrasePart(s, n);
    assert s[..n][p..] == s[p..][..n - p];
    assert s[p..][n - p..] == s[n..];
  }

  lemma WordEndAfterByte(s: string)
    requires s != "" && s[0] != ' ' && !OpensPhrase(s) && EndsWell(s[1..], WordLen(s[1..]))
    ensures EndsWell(s, WordLen(s))
  {
    var n := WordLen(s);
    assert s[..n][1..] == s[1..][..n - 1];
    assert s[1..][n - 1..] == s[n..];
    assert s[1..] == s[..n][1..] + s[n..];
  }

  ghost predicate IsPhrase(t: string) {
    OpensPhrase(t) && PhraseLen(t) == |t|
  }

  ghost predicate IsToken(t: string) {
    t != "" && t[0] != ' ' && (IsPhrase(t) || (!OpensPhrase(t) && WordLen(t) == |t|))
  }

  /** A token that must not be followed by quotes. */
  ghost predicate LeftOpen(t: string) {
    !IsPhrase(t) && !Closed(t)
  }

  /** Tokens that read back: after one with a quote left open there are no quotes. */
  ghost predicate Readable(ts: seq<string>) {
    ts == [] || (IsToken(ts[0]) && (LeftOpen(ts[0]) ==> forall u :: u in ts[1..] ==> QUOTE !in u) && Readable(ts[1..]))
  }

  lemma TokenLocal(t: string, r: string)
    requires IsToken(t) && EndsToken(r) && (LeftOpen(t) ==> QUOTE !in r)
    ensures TokenLen(t + r) == |t|
  {
    if IsPhrase(t) {
      PhraseLocal(t, r);
    } else {
      WordLocal(t, r);
      assert (t + r)[1..] == t[1..] + r;
      if t[0] == QUOTE { assert LeftOpen(t); }
    }
  }

  lemma {:induction false} JoinQuotes(ts: seq<string>)
    requires forall u :: u in ts ==> QUOTE !in u
    ensures QUOTE !in Join(ts, " ")
    decreases |ts|
  {
    if |ts| > 1 {
      assert ts[0] in ts;
      assert forall u :: u in ts[1..] ==> u in ts;
      JoinQuotes(ts[1..]);
    } else if |ts| == 1 {
      assert ts[0] in ts;
    }
  }

  lemma {:induction false} ReadableReadsBack(ts: seq<string>)
    requires Readable(ts)
    ensures Tokens(Join(ts, " ")) == ts
    decreases |ts|
  {
    if ts != [] {
      var t, rest := ts[0], ts[1..];
      assert ts == [t] + rest;
      var r := if rest == [] then "" else " " + Join(rest, " ");
      assert Join(ts, " ") == t + r;
      ReadableReadsBack(rest);
      if LeftOpen(t) { JoinQuotes(rest); }
      TokenLocal(t, r);
      assert (t + r)[..|t|] == t && (t + r)[|t|..] == r;
      if rest != [] {
        assert r[1..] == Join(rest, " ");
      }
    }
  }

  lemma {:induction false} TokensAreParts(s: string)
    requires QUOTE !in s
    ensures forall u :: u in Tokens(s) ==> QUOTE !in u
    decreases |s|
  {
    if s == "" {
    } else if s[0] == ' ' {
      TokensAreParts(s[1..]);
    } else {
      TokensAreParts(s[TokenLen(s)..]);
    }
  }

  lemma {:induction false} TokensReadable(s: string)
    ensures Readable(Tokens(s))
    decreases |s|
  {
    if s == "" {
    } else if s[0] == ' ' {
      TokensReadable(s[1..]);
    } else {
      var n := TokenLen(s);
      var t, r := s[..n], s[n..];
      TokensReadable(r);
      assert Tokens(s)[1..] == Tokens(r);
      if OpensPhrase(s) {
        PhrasePart(s, n);
      } else {
        WordEnd(s);
        assert EndsWell(s, n);
        assert s[1..] == t[1..] + r;
        if LeftOpen(t) { TokensAreParts(r); }
      }
    }
  }

  lemma {:induction false} SubsequenceMembers(a: seq<string>, b: seq<string>)
    requires Subsequence(a, b)
    ensures forall u :: u in a ==> u in b
    decreases |b|
  {
    if a != [] {
      if a[0] == b[0] && Subsequence(a[1..], b[1..]) {
        SubsequenceMembers(a[1..], b[1..]);
        assert a == [a[0]] + a[1..];
      } else {
        SubsequenceMembers(a, b[1..]);
      }
    }
  }

  lemma {:induction false} SubsequenceReadable(a: seq<string>, b: seq<string>)
    requires Subsequence(a, b) && Readable(b)
    ensures Readable(a)
    decreases |b|
  {
    if a != [] {
      if a[0] == b[0] && Subsequence(a[1..], b[1..]) {
        SubsequenceReadable(a[1..], b[1..]);
        SubsequenceMembers(a[1..], b[1..]);
      } else {
        SubsequenceReadable(a, b[1..]);
      }
    }
  }

  /** Any tokens of s, re-joined in order, read back as exactly those tokens. */
  lemma KeptTokensReadBack(s: string, kept: seq<string>)
    requires Subsequence(kept, Tokens(s))
    ensures Tokens(Join(kept, " ")) == kept
  {
    TokensReadable(s);
    SubsequenceReadable(kept, Tokens(s));
    ReadableReadsBack(kept);
  }

  // ----- Nothing but spaces between tokens is lost -----

  /** s is ts in order, with spaces around and between. */
  ghost predicate Spells(s: string, ts: seq<string>)
    decreases |s|
  {
    if s == "" then ts == []
    else || (s[0] == ' ' && Spells(s[1..], ts))
         || (ts != [] && ts[0] != "" && ts[0] <= s && Spells(s[|ts[0]|..], ts[1..]))
  }

  lemma {:induction false} TokensSpell(s: string)
    ensures Spells(s, Tokens(s))
    decreases |s|
  {
    if s == "" {
    } else if s[0] == ' ' {
      TokensSpell(s[1..]);
    } else {
      TokensSpell(s[TokenLen(s)..]);
      assert Tokens(s)[1..] == Tokens(s[TokenLen(s)..]);
    }
  }
}
