/** Splitting styled text into tokens (packages/tui/src/utils.ts): words, runs of spaces and
    single CJK characters, with their escape codes. */
module Tokens {
  import opened StyledText

  ghost predicate AllCodes(t: Text) { forall i :: 0 <= i < |t| ==> t[i].C? }

  /** A character that may be broken from its neighbours. */
  predicate IsCjk(g: Grapheme) { !g.space && g.cjk }

  /** Two neighbours between which a line is not broken. */
  predicate Joined(a: Grapheme, b: Grapheme) { !IsCjk(a) && !IsCjk(b) && a.space == b.space }

  /** The first character at or after item `i`. */
  function NextChar(t: Text, i: nat): (j: nat)
    requires i <= |t|
    ensures i <= j <= |t| && (j < |t| ==> t[j].G?) && forall k :: i <= k < j ==> t[k].C?
    decreases |t| - i
  {
    if i == |t| || t[i].G? then i else NextChar(t, i + 1)
  }

  /** A text may be broken at item `i`: between two characters that are not joined. The codes there go with
      the second one. */
  predicate Boundary(t: Text, i: nat)
    requires i <= |t|
  {
    || i == 0 || i == |t|
    || (t[i - 1].G? && NextChar(t, i) < |t| && !Joined(t[i - 1].grapheme, t[NextChar(t, i)].grapheme))
  }

  /** The end of the run that item `i` is in. */
  function RunEnd(t: Text, i: nat): (e: nat)
    requires i <= |t|
    ensures i <= e <= |t| && (i < |t| ==> i < e) && Boundary(t, e)
    decreases |t| - i
  {
    if i == |t| then i else if Boundary(t, i + 1) then i + 1 else RunEnd(t, i + 1)
  }

  /** The start of the run that item `i` is in. */
  function RunStart(t: Text, i: nat): (s: nat)
    requires i <= |t|
    ensures s <= i && Boundary(t, s)
  {
    if Boundary(t, i) then i else RunStart(t, i - 1)
  }

  /** `t[a..b]` is a whole run. */
  ghost predicate IsRun(t: Text, a: nat, b: nat) {
    a < b <= |t| && Boundary(t, a) && Boundary(t, b) && forall k :: a < k < b ==> !Boundary(t, k)
  }

  lemma RunOf(t: Text, a: nat, b: nat, i: nat)
    requires IsRun(t, a, b) && a <= i < b
    ensures RunStart(t, i) == a && RunEnd(t, i) == b
  {
    hide Boundary;
    StartOf(t, a, b, i);
    EndOf(t, a, b, i);
  }

  lemma {:induction false} StartOf(t: Text, a: nat, b: nat, i: nat)
    requires IsRun(t, a, b) && a <= i < b
    ensures RunStart(t, i) == a
  {
    hide Boundary;
    if i > a {
      StartOf(t, a, b, i - 1);
    }
  }

  lemma {:induction false} EndOf(t: Text, a: nat, b: nat, i: nat)
    requires IsRun(t, a, b) && a <= i < b
    ensures RunEnd(t, i) == b
    decreases b - i
  {
    hide Boundary;
    if i + 1 < b {
      EndOf(t, a, b, i + 1);
    }
  }

  ghost predicate Spaces(t: Text) { forall i :: 0 <= i < |t| && t[i].G? ==> t[i].grapheme.space }

  ghost predicate Word(t: Text) {
    forall i :: 0 <= i < |t| && t[i].G? ==> !t[i].grapheme.space && !IsCjk(t[i].grapheme)
  }

  ghost predicate SingleCjk(t: Text) {
    exists i :: 0 <= i < |t| && t[i].G? && IsCjk(t[i].grapheme) && forall j :: 0 <= j < |t| && j != i ==> t[j].C?
  }

  ghost predicate IsToken(t: Text) {
    HasGrapheme(t) && (Spaces(t) || Word(t) || SingleCjk(t))
  }

  /** `b` does not go on with the run that `a` ends with. */
  ghost predicate Apart(a: Text, b: Text) {
    && a != [] && a[|a| - 1].G?
    && NextChar(b, 0) < |b| && !Joined(a[|a| - 1].grapheme, b[NextChar(b, 0)].grapheme)
  }

  /** The tokens are the runs of the text: each is one, and no two neighbours belong together. */
  ghost predicate Tokenized(text: Text, tokens: seq<Text>) {
    && Flatten(tokens) == text
    && ((forall k :: 0 <= k < |tokens| ==> IsToken(tokens[k])) || (tokens == [text] && AllCodes(text)))
    && AllApart(tokens)
  }

  ghost predicate AllApart(tokens: seq<Text>) {
    forall i, k :: 0 <= i < k < |tokens| && k == i + 1 ==> Apart(tokens[i], tokens[k])
  }

  lemma ApartAppend(tokens: seq<Text>, t: Text)
    requires AllApart(tokens) && (tokens != [] ==> Apart(tokens[|tokens| - 1], t))
    ensures AllApart(tokens + [t])
  {
    hide Apart;
  }

  lemma TokenThenCodes(t: Text, codes: Text)
    requires IsToken(t) && AllCodes(codes)
    ensures IsToken(t + codes)
  {
    var i :| 0 <= i < |t| && t[i].G?;
    assert (t + codes)[i].G?;
    if SingleCjk(t) {
      var k :| 0 <= k < |t| && t[k].G? && IsCjk(t[k].grapheme) && forall j :: 0 <= j < |t| && j != k ==> t[j].C?;
      assert (t + codes)[k] == t[k];
      assert SingleCjk(t + codes);
    }
  }

  lemma {:induction false} NextCharIn(t: Text, tail: Text, i: nat)
    requires i <= |t| && NextChar(t, i) < |t|
    ensures NextChar(t + tail, i) == NextChar(t, i)
    decreases |t| - i
  {
    if t[i].C? {
      NextCharIn(t, tail, i + 1);
    }
  }

  lemma ApartLonger(a: Text, b: Text, tail: Text)
    requires Apart(a, b)
    ensures Apart(a, b + tail)
  {
    NextCharIn(b, tail, 0);
  }

  lemma NextCharLast(codes: Text, g: Item)
    requires AllCodes(codes) && g.G?
    ensures NextChar(codes + [g], 0) == |codes|
  {
    var t := codes + [g];
    assert t[|codes|] == g;
    assert forall k :: 0 <= k < |codes| ==> t[k].C?;
  }

  // ----- the loop -----

  /** What the tokenizer has made of the items `done`. */
  ghost predicate Tokenizing(tokens: seq<Text>, current: Text, space: bool, pending: Text, done: Text) {
    && Flatten(tokens) + current + pending == done
    && AllCodes(pending)
    && Ended(tokens)
    && (current != [] ==> InRun(current, space) && (tokens != [] ==> Apart(tokens[|tokens| - 1], current)))
    && (current == [] && tokens != [] ==> EndsInCjk(tokens[|tokens| - 1]))
  }

  /** Finished tokens; each ends in a character. */
  ghost predicate Ended(tokens: seq<Text>) {
    && (forall k :: 0 <= k < |tokens| ==> Finished(tokens[k]))
    && AllApart(tokens)
  }

  ghost predicate Finished(t: Text) { IsToken(t) && t[|t| - 1].G? }

  ghost predicate InRun(t: Text, space: bool)
    requires t != []
  {
    && IsToken(t) && t[|t| - 1].G? && !IsCjk(t[|t| - 1].grapheme) && t[|t| - 1].grapheme.space == space
    && if space then Spaces(t) else Word(t)
  }

  ghost predicate EndsInCjk(t: Text) { t != [] && t[|t| - 1].G? && IsCjk(t[|t| - 1].grapheme) }

  lemma TokenizeCode(tokens: seq<Text>, current: Text, space: bool, pending: Text, done: Text, i: Item)
    requires Tokenizing(tokens, current, space, pending, done) && i.C?
    ensures Tokenizing(tokens, current, space, pending + [i], done + [i])
  {
    assert Flatten(tokens) + current + (pending + [i]) == Flatten(tokens) + current + pending + [i];
  }

  lemma EndedAppend(tokens: seq<Text>, t: Text)
    requires Ended(tokens) && Finished(t)
    requires tokens != [] ==> Apart(tokens[|tokens| - 1], t)
    ensures Ended(tokens + [t]) && Flatten(tokens + [t]) == Flatten(tokens) + t
  {
    hide Finished, Apart, AllApart, Flatten;
    FlattenAppend(tokens, t);
    ApartAppend(tokens, t);
  }

  /** `flushCurrent`: the tokens with the unfinished one, if there is one. */
  function Flushed(tokens: seq<Text>, current: Text): seq<Text> {
    if current != [] then tokens + [current] else tokens
  }

  lemma FlushedEnded(tokens: seq<Text>, current: Text, space: bool, pending: Text, done: Text)
    requires Tokenizing(tokens, current, space, pending, done)
    ensures Ended(Flushed(tokens, current)) && Flatten(Flushed(tokens, current)) + pending == done
  {
    if current != [] {
      EndedAppend(tokens, current);
    }
  }

  lemma CjkToken(pending: Text, i: Item)
    requires AllCodes(pending) && i.G? && IsCjk(i.grapheme)
    ensures var t := pending + [i]; IsToken(t) && EndsInCjk(t) && NextChar(t, 0) == |pending|
  {
    NextCharLast(pending, i);
    assert (pending + [i])[|pending|] == i;
    assert SingleCjk(pending + [i]);
  }

  lemma TokenizeCjk(tokens: seq<Text>, current: Text, space: bool, pending: Text, done: Text, i: Item)
    requires Tokenizing(tokens, current, space, pending, done) && i.G? && IsCjk(i.grapheme)
    ensures Tokenizing(Flushed(tokens, current) + [pending + [i]], [], space, [], done + [i])
  {
    var t, before := pending + [i], Flushed(tokens, current);
    FlushedEnded(tokens, current, space, pending, done);
    CjkToken(pending, i);
    hide IsToken, NextChar, Flatten;
    EndedAppend(before, t);
    assert Flatten(before) + t == Flatten(before) + pending + [i];
    assert Flatten(before + [t]) + [] + [] == done + [i];
  }

  lemma GraphemeToken(pending: Text, i: Item)
    requires AllCodes(pending) && i.G? && !IsCjk(i.grapheme)
    ensures InRun(pending + [i], i.grapheme.space)
  {
    var t := pending + [i];
    assert t[|pending|] == i;
  }

  /** A character that starts a new run. */
  lemma TokenizeNew(tokens: seq<Text>, current: Text, space: bool, pending: Text, done: Text, i: Item)
    requires Tokenizing(tokens, current, space, pending, done) && i.G? && !IsCjk(i.grapheme)
    requires current == [] || space != i.grapheme.space
    ensures Tokenizing(Flushed(tokens, current), pending + [i], i.grapheme.space, [], done + [i])
  {
    var t, before := pending + [i], Flushed(tokens, current);
    FlushedEnded(tokens, current, space, pending, done);
    NextCharLast(pending, i);
    GraphemeToken(pending, i);
    assert t[|pending|] == i;
    assert Flatten(before) + t + [] == Flatten(before) + pending + [i];
  }

  /** A character that goes on with the run. */
  lemma TokenizeMore(tokens: seq<Text>, current: Text, space: bool, pending: Text, done: Text, i: Item)
    requires Tokenizing(tokens, current, space, pending, done) && i.G? && !IsCjk(i.grapheme)
    requires current != [] && space == i.grapheme.space
    ensures Tokenizing(tokens, current + pending + [i], space, [], done + [i])
  {
    hide Flatten;
    var t := current + pending + [i];
    assert t[|current + pending|] == i;
    if tokens != [] {
      ApartLonger(tokens[|tokens| - 1], current, pending + [i]);
      assert current + (pending + [i]) == t;
    }
    assert Flatten(tokens) + t + [] == Flatten(tokens) + current + pending + [i];
  }

  /** Split text into words, runs of spaces and single CJK characters; codes go with the
      character after them, or with the last token. */
  method SplitIntoTokensWithAnsi(text: Text) returns (tokens: seq<Text>)
    ensures Tokenized(text, tokens)
  {
    hide Tokenizing;
    tokens := [];
    var current: Text := [];
    var pendingAnsi: Text := [];
    var currentIsSpace := false;
    TokenizeStart();
    for i := 0 to |text|
      invariant Tokenizing(tokens, current, currentIsSpace, pendingAnsi, text[..i])
    {
      assert text[..i + 1] == text[..i] + [text[i]];
      if text[i].C? {
        TokenizeCode(tokens, current, currentIsSpace, pendingAnsi, text[..i], text[i]);
        pendingAnsi := pendingAnsi + [text[i]];
      } else {
        var g := text[i].grapheme;
        if IsCjk(g) {
          TokenizeCjk(tokens, current, currentIsSpace, pendingAnsi, text[..i], text[i]);
          tokens, current := Flushed(tokens, current), [];
          tokens := tokens + [pendingAnsi + [text[i]]];
        } else {
          if current == [] || currentIsSpace != g.space {
            TokenizeNew(tokens, current, currentIsSpace, pendingAnsi, text[..i], text[i]);
            tokens, current := Flushed(tokens, current), [];
            assert [] + pendingAnsi + [text[i]] == pendingAnsi + [text[i]];
          } else {
            TokenizeMore(tokens, current, currentIsSpace, pendingAnsi, text[..i], text[i]);
          }
          current := current + pendingAnsi + [text[i]];
          currentIsSpace := g.space;
        }
        pendingAnsi := [];
      }
    }
    assert text[..|text|] == text;
    tokens := LastTokens(tokens, current, currentIsSpace, pendingAnsi, text);
  }

  lemma TokenizeStart()
    ensures Tokenizing([], [], false, [], [])
  {
  }

  lemma TokensDone(tokens: seq<Text>, text: Text)
    requires Ended(tokens) && Flatten(tokens) == text
    ensures Tokenized(text, tokens)
  {
  }

  lemma OnlyCodes(pending: Text)
    requires AllCodes(pending)
    ensures Tokenized(pending, [pending])
  {
    FlattenAppend([], pending);
    assert [] + [pending] == [pending];
  }

  /** The last token may end in codes. */
  lemma LastToken(front: seq<Text>, last: Text)
    requires Ended(front) && IsToken(last) && (front != [] ==> Apart(front[|front| - 1], last))
    ensures Tokenized(Flatten(front) + last, front + [last])
  {
    hide IsToken, Apart, AllApart, Flatten;
    FlattenAppend(front, last);
    ApartAppend(front, last);
  }

  /** Leftover codes go with the last token. */
  lemma LeftoverCodes(front: seq<Text>, last: Text, pending: Text)
    requires Ended(front) && IsToken(last) && (front != [] ==> Apart(front[|front| - 1], last)) && AllCodes(pending)
    ensures Tokenized(Flatten(front) + last + pending, front + [last + pending])
  {
    hide IsToken, Apart, Flatten, Ended, Tokenized, AllCodes;
    TokenThenCodes(last, pending);
    assert Flatten(front) + (last + pending) == Flatten(front) + last + pending;
    if front != [] {
      ApartLonger(front[|front| - 1], last, pending);
    }
    LastToken(front, last + pending);
  }

  /** The end of the tokenizer: leftover codes and the last token. */
  method LastTokens(sofar: seq<Text>, last: Text, ghost space: bool, pendingAnsi: Text, ghost text: Text)
    returns (tokens: seq<Text>)
    requires Tokenizing(sofar, last, space, pendingAnsi, text)
    ensures Tokenized(text, tokens)
  {
    hide IsToken, Apart, Tokenized;
    tokens := sofar;
    var current := last;
    if pendingAnsi != [] {
      if current != [] {
        LeftoverCodes(tokens, current, pendingAnsi);
        current := current + pendingAnsi;
        tokens := tokens + [current];
        return;
      } else if tokens != [] {
        var n := |tokens| - 1;
        LeftoverCodes(tokens[..n], tokens[n], pendingAnsi);
        assert Flatten(tokens[..n]) + tokens[n] + pendingAnsi == text;
        tokens := tokens[..n] + [tokens[n] + pendingAnsi];
        return;
      }
      OnlyCodes(pendingAnsi);
      assert pendingAnsi == text;
      current := pendingAnsi;
      return [current];
    }
    FlushedEnded(sofar, last, space, pendingAnsi, text);
    tokens := Flushed(sofar, last);
    assert Flatten(tokens) + [] == Flatten(tokens);
    TokensDone(tokens, text);
  }

  // ----- tokens are runs -----

  lemma {:induction false} NextCharInside(t: Text, a: nat, b: nat, i: nat)
    requires a <= b <= |t| && i <= b - a
    ensures NextChar(t[a..b], i) < b - a ==> NextChar(t, a + i) == a + NextChar(t[a..b], i)
    ensures NextChar(t[a..b], i) == b - a && b == |t| ==> NextChar(t, a + i) == |t|
    decreases b - a - i
  {
    if i < b - a && t[a + i].C? {
      NextCharInside(t, a, b, i + 1);
    }
  }

  /** Where a token is in the text. */
  lemma TokenPlace(tokens: seq<Text>, k: nat)
    requires k < |tokens|
    ensures var a, b := |Flatten(tokens[..k])|, |Flatten(tokens[..k + 1])|;
      && b == a + |tokens[k]| <= |Flatten(tokens)|
      && Flatten(tokens)[a..b] == tokens[k] && Flatten(tokens)[..a] == Flatten(tokens[..k])
    ensures k + 1 == |tokens| ==> |Flatten(tokens[..k + 1])| == |Flatten(tokens)|
    decreases |tokens|
  {
    var n := |tokens| - 1;
    assert tokens[..k + 1][..k] == tokens[..k];
    if k < n {
      TokenPlace(tokens[..n], k);
      assert tokens[..n][..k] == tokens[..k] && tokens[..n][..k + 1] == tokens[..k + 1];
    } else {
      assert tokens[..n + 1] == tokens;
    }
  }

  /** Every token is a whole run of the text. */
  lemma TokensAreRuns(text: Text, tokens: seq<Text>, k: nat)
    requires Tokenized(text, tokens) && k < |tokens| && text != []
    ensures var a, b := |Flatten(tokens[..k])|, |Flatten(tokens[..k + 1])|;
      IsRun(text, a, b) && text[a..b] == tokens[k] && text[..a] == Flatten(tokens[..k])
  {
    hide Flatten;
    var a, b := |Flatten(tokens[..k])|, |Flatten(tokens[..k + 1])|;
    TokenPlace(tokens, k);
    StartsRun(text, tokens, k);
    if k + 1 < |tokens| {
      TokenPlace(tokens, k + 1);
      StartsRun(text, tokens, k + 1);
    }
    if tokens == [text] && AllCodes(text) {
      EmptyStart(tokens);
    } else {
      forall x | a < x < b
        ensures !Boundary(text, x)
      {
        InsideRun(text, a, b, x);
      }
    }
  }

  lemma EmptyStart(tokens: seq<Text>)
    ensures Flatten(tokens[..0]) == []
  {
  }

  lemma StartsRun(text: Text, tokens: seq<Text>, k: nat)
    requires Tokenized(text, tokens) && k < |tokens|
    ensures |Flatten(tokens[..k])| <= |text| && Boundary(text, |Flatten(tokens[..k])|)
  {
    hide Flatten, IsToken;
    TokenPlace(tokens, k);
    EmptyStart(tokens);
    if k > 0 {
      var a, b := |Flatten(tokens[..k])|, |Flatten(tokens[..k + 1])|;
      TokenPlace(tokens, k - 1);
      assert Apart(tokens[k - 1], tokens[k]);
      assert text[a - 1] == tokens[k - 1][|tokens[k - 1]| - 1];
      NextCharInside(text, a, b, 0);
    }
  }

  /** Inside a token there is no place to break. */
  lemma InsideRun(text: Text, a: nat, b: nat, x: nat)
    requires a < x < b <= |text| && IsToken(text[a..b])
    requires b < |text| ==> text[b - 1].G?
    ensures !Boundary(text, x)
  {
    var t := text[a..b];
    NextCharInside(text, a, b, x - a);
    assert t[x - 1 - a] == text[x - 1];
    assert b < |text| ==> t[b - 1 - a].G?;
  }
}
