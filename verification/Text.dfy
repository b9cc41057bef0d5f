/** Lines and whitespace of configuration text. */
module Text {

  /** Characters with the Unicode property White_Space. */
  predicate IsSpace(c: char)
  {
    || '\U{0009}' <= c <= '\U{000D}' || c == ' ' || c == '\U{0085}' || c == '\U{00A0}' || c == '\U{1680}'
    || '\U{2000}' <= c <= '\U{200A}' || c == '\U{2028}' || c == '\U{2029}' || c == '\U{202F}' || c == '\U{205F}' || c == '\U{3000}'
  }

  function TrimStart(s: string): string
  {
    if |s| > 0 && IsSpace(s[0]) then TrimStart(s[1..]) else s
  }

  function TrimEnd(s: string): string
  {
    if |s| > 0 && IsSpace(s[|s| - 1]) then TrimEnd(s[..|s| - 1]) else s
  }

  function Trim(s: string): string { TrimEnd(TrimStart(s)) }

  /** A head that neither starts nor ends with a space survives trimming. */
  lemma {:induction false} TrimKeepsHead(head: string, rest: string)
    requires |head| > 0 && !IsSpace(head[0]) && !IsSpace(head[|head| - 1])
    ensures head <= Trim(head + rest)
  {
    hide IsSpace;
    TrimEndKeepsHead(head, rest);
  }

  lemma {:induction false} TrimEndKeepsHead(head: string, rest: string)
    requires |head| > 0 && !IsSpace(head[|head| - 1])
    ensures head <= TrimEnd(head + rest)
  {
    hide IsSpace;
    if |rest| == 0 {
      assert head + rest == head;
    } else if IsSpace(rest[|rest| - 1]) {
      assert (head + rest)[..|head + rest| - 1] == head + rest[..|rest| - 1];
      TrimEndKeepsHead(head, rest[..|rest| - 1]);
    }
  }

  lemma TrimNothing(s: string)
    requires |s| > 0 && !IsSpace(s[0]) && !IsSpace(s[|s| - 1])
    ensures Trim(s) == s
  {
  }

  lemma {:induction false} TrimStartSkips(pad: string, s: string)
    requires forall c :: c in pad ==> IsSpace(c)
    ensures TrimStart(pad + s) == TrimStart(s)
  {
    hide IsSpace;
    if |pad| == 0 {
      assert pad + s == s;
    } else {
      assert (pad + s)[1..] == pad[1..] + s && (pad + s)[0] == pad[0];
      TrimStartSkips(pad[1..], s);
    }
  }

  // ── lines ────────────────────────────────────────────────────────────────

  /** Where the first newline is, or the length. */
  function FirstNewline(t: string): (k: nat)
    ensures k <= |t| && '\n' !in t[..k] && (k < |t| ==> t[k] == '\n')
  {
    if |t| == 0 || t[0] == '\n' then 0
    else
      assert t[1..][..FirstNewline(t[1..])] == t[1..1 + FirstNewline(t[1..])];
      1 + FirstNewline(t[1..])
  }

  function StripCr(line: string): string
  {
    if |line| > 0 && line[|line| - 1] == '\r' then line[..|line| - 1] else line
  }

  /** Lines without their terminators, which are LF or CRLF; an unterminated last
      line counts. */
  function Lines(t: string): seq<string>
  {
    if |t| == 0 then []
    else
      var k := FirstNewline(t);
      if k == |t| then [t] else [StripCr(t[..k])] + Lines(t[k + 1..])
  }

  /** Every line terminated by LF. */
  function Unlines(ls: seq<string>): string
  {
    if |ls| == 0 then "" else ls[0] + "\n" + Unlines(ls[1..])
  }

  ghost predicate OneLine(l: string) { '\n' !in l && '\r' !in l }

  ghost predicate AllOneLine(ls: seq<string>) { forall i :: 0 <= i < |ls| ==> OneLine(ls[i]) }

  lemma {:induction false} NewlineAfter(head: string, rest: string)
    requires '\n' !in head
    ensures FirstNewline(head + "\n" + rest) == |head|
  {
    var t := head + "\n" + rest;
    if |head| > 0 {
      assert t[0] == head[0];
      assert t[1..] == head[1..] + "\n" + rest;
      NewlineAfter(head[1..], rest);
    }
  }

  lemma {:induction false} LinesOfUnlines(ls: seq<string>)
    requires AllOneLine(ls)
    ensures Lines(Unlines(ls)) == ls
  {
    if |ls| > 0 {
      var (head, rest) := (ls[0], Unlines(ls[1..]));
      var t := head + "\n" + rest;
      assert OneLine(head);
      NewlineAfter(head, rest);
      assert t[..|head|] == head && t[|head| + 1..] == rest;
      assert |head| > 0 ==> head[|head| - 1] in head;
      LinesOfUnlines(ls[1..]);
    }
  }

  /** On LF text only a missing final newline is added. */
  lemma {:induction false} UnlinesOfLines(t: string)
    requires '\r' !in t
    ensures Unlines(Lines(t)) == if |t| == 0 || t[|t| - 1] == '\n' then t else t + "\n"
    ensures AllOneLine(Lines(t))
  {
    if |t| > 0 {
      var k := FirstNewline(t);
      if k == |t| {
        assert t[..k] == t;
        assert Unlines([t]) == t + "\n" + Unlines([]);
        assert t[|t| - 1] in t;
      } else {
        var rest := t[k + 1..];
        assert t == t[..k] + "\n" + rest;
        assert forall c :: c in rest ==> c in t;
        assert forall c :: c in t[..k] ==> c in t;
        UnlinesOfLines(rest);
        assert Lines(t) == [t[..k]] + Lines(rest);
        assert Lines(t)[1..] == Lines(rest);
      }
    }
  }

  lemma UnlinesStep(ls: seq<string>)
    requires |ls| > 0
    ensures Unlines(ls) == ls[0] + "\n" + Unlines(ls[1..])
  {
  }

  lemma Regroup(a: string, b: string, c: string)
    ensures a + (b + c) == a + b + c
  {
  }

  lemma {:induction false} UnlinesAppend(xs: seq<string>, ys: seq<string>)
    ensures Unlines(xs + ys) == Unlines(xs) + Unlines(ys)
  {
    if |xs| == 0 {
      assert xs + ys == ys;
    } else {
      UnlinesAppend(xs[1..], ys);
      assert (xs + ys)[1..] == xs[1..] + ys && (xs + ys)[0] == xs[0];
      UnlinesStep(xs);
      UnlinesStep(xs + ys);
      hide Unlines;
      Regroup(xs[0] + "\n", Unlines(xs[1..]), Unlines(ys));
    }
  }
}
