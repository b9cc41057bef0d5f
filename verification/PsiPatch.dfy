/** The `[psi]` rewriter behind `mgctl calibrate --passive-apply`. */
module PsiPatch {
  import opened Text
  import opened Types

  const ELEVATED := "elevated_pct"
  const FULL := "full_critical_pct"

  /** The two new lines; the numbers come already formatted. */
  datatype NewLines = NewLines(elevated: string, full: string)

  function NewFor(elevatedValue: string, fullValue: string): NewLines
  {
    NewLines("elevated_pct      = " + elevatedValue, "full_critical_pct = " + fullValue)
  }

  predicate StartsWith(s: string, prefix: string) { prefix <= s }

  predicate IsHeader(line: string)
  {
    var t := Trim(line);
    |t| > 0 && t[0] == '[' && t[|t| - 1] == ']'
  }

  predicate IsPsiHeader(line: string) { Trim(line) == "[psi]" }

  predicate IsComment(line: string) { StartsWith(Trim(line), "#") }

  /** What the rewriter takes for a line of `key`. */
  predicate IsKeyLine(line: string, key: string)
  {
    !IsComment(line) && StartsWith(Trim(line), key) && '=' in Trim(line)
  }

  /** A line that is rewritten, not copied, inside a psi section. */
  predicate IsRewritten(line: string) { !IsHeader(line) && (IsKeyLine(line, ELEVATED) || IsKeyLine(line, FULL)) }

  // ── the pass over the lines ──────────────────────────────────────────────

  datatype State = State(inPsi: bool, foundElevated: bool, foundFull: bool)

  const START: State := State(false, false, false)

  /** The lines a section still lacks when it ends. */
  function Missing(st: State, n: NewLines): seq<string>
  {
    (if st.inPsi && !st.foundElevated then [n.elevated] else []) + (if st.inPsi && !st.foundFull then [n.full] else [])
  }

  function Emit(st: State, line: string, n: NewLines): seq<string>
  {
    if IsHeader(line) then Missing(st, n) + [line]
    else if st.inPsi && IsKeyLine(line, ELEVATED) then [n.elevated]
    else if st.inPsi && IsKeyLine(line, FULL) then [n.full]
    else [line]
  }

  function Advance(st: State, line: string): State
  {
    if IsHeader(line) then st.(inPsi := IsPsiHeader(line))
    else if st.inPsi && IsKeyLine(line, ELEVATED) then st.(foundElevated := true)
    else if st.inPsi && IsKeyLine(line, FULL) then st.(foundFull := true)
    else st
  }

  function PatchFrom(ls: seq<string>, st: State, n: NewLines): seq<string>
  {
    if |ls| == 0 then Missing(st, n) else Emit(st, ls[0], n) + PatchFrom(ls[1..], Advance(st, ls[0]), n)
  }

  predicate HasPsi(ls: seq<string>) { exists i :: 0 <= i < |ls| && IsPsiHeader(ls[i]) }

  function NewBlock(n: NewLines): seq<string> { ["", "[psi]", n.elevated, n.full] }

  function PatchLines(ls: seq<string>, n: NewLines): seq<string>
  {
    if HasPsi(ls) then PatchFrom(ls, START, n) else ls + NewBlock(n)
  }

  function SeparatorAfter(content: string): string
  {
    if content == "" || content[|content| - 1] == '\n' then "" else "\n"
  }

  function BlockText(n: NewLines): string { "\n[psi]\n" + n.elevated + "\n" + n.full + "\n" }

  /** The rewritten text. */
  function Patched(content: string, n: NewLines): string
  {
    if HasPsi(Lines(content)) then Unlines(PatchFrom(Lines(content), START, n))
    else
      content + SeparatorAfter(content) + BlockText(n)
  }

  method AnyPsi(ls: seq<string>) returns (has: bool)
    ensures has <==> HasPsi(ls)
  {
    has := false;
    var i := 0;
    while i < |ls|
      invariant 0 <= i <= |ls|
      invariant !has && forall k :: 0 <= k < i ==> !IsPsiHeader(ls[k])
    {
      if IsPsiHeader(ls[i]) { return true; }
      i := i + 1;
    }
  }

  method PatchPsiBlock(content: string, elevatedValue: string, fullValue: string) returns (text: string)
    ensures text == Patched(content, NewFor(elevatedValue, fullValue))
  {
    var n := NewFor(elevatedValue, fullValue);
    var ls := Lines(content);
    var has := AnyPsi(ls);
    if !has {
      return content + SeparatorAfter(content) + BlockText(n);
    }
    var result := PatchAll(ls, n);
    text := Unlines(result);
  }

  /** One line: what is pushed, and the section state after it. */
  method PatchLine(line: string, st: State, n: NewLines) returns (pushed: seq<string>, st': State)
    ensures pushed == Emit(st, line, n) && st' == Advance(st, line)
  {
    pushed, st' := [], st;
    hide IsHeader, IsPsiHeader, IsKeyLine;
    if IsHeader(line) {
      if st.inPsi {
        if !st.foundElevated { pushed := pushed + [n.elevated]; }
        if !st.foundFull { pushed := pushed + [n.full]; }
      }
      st' := st.(inPsi := IsPsiHeader(line));
      pushed := pushed + [line];
    } else if st.inPsi && IsKeyLine(line, ELEVATED) {
      pushed := [n.elevated];
      st' := st.(foundElevated := true);
    } else if st.inPsi && IsKeyLine(line, FULL) {
      pushed := [n.full];
      st' := st.(foundFull := true);
    } else {
      pushed := [line];
    }
  }

  method PatchAll(ls: seq<string>, n: NewLines) returns (result: seq<string>)
    ensures result == PatchFrom(ls, START, n)
  {
    result := [];
    var st := START;
    var i := 0;
    assert ls[0..] == ls;
    hide *;
    while i < |ls|
      invariant 0 <= i <= |ls|
      invariant PatchFrom(ls, START, n) == result + PatchFrom(ls[i..], st, n)
    {
      PatchFromStep(ls, i, st, n, result);
      var pushed;
      pushed, st := PatchLine(ls[i], st, n);
      result := result + pushed;
      i := i + 1;
    }
    assert ls[i..] == [];
    PatchFromEnd(st, n);
    result := result + Missing(st, n);
  }

  lemma PatchFromStep(ls: seq<string>, i: nat, st: State, n: NewLines, result: seq<string>)
    requires i < |ls|
    ensures result + PatchFrom(ls[i..], st, n) == result + Emit(st, ls[i], n) + PatchFrom(ls[i + 1..], Advance(st, ls[i]), n)
  {
    assert ls[i..][0] == ls[i] && ls[i..][1..] == ls[i + 1..];
    hide Emit, Advance;
  }

  lemma PatchFromEnd(st: State, n: NewLines)
    ensures PatchFrom([], st, n) == Missing(st, n)
  {
  }

  // ── the new lines are recognised ─────────────────────────────────────────

  /** The lines the rewriter writes are ones it would rewrite, to themselves. */
  ghost predicate Recognised(n: NewLines)
  {
    && IsKeyLine(n.elevated, ELEVATED) && !IsHeader(n.elevated)
    && IsKeyLine(n.full, FULL) && !IsKeyLine(n.full, ELEVATED) && !IsHeader(n.full)
  }

  lemma NewLinesAreRecognised(elevatedValue: string, fullValue: string)
    ensures Recognised(NewFor(elevatedValue, fullValue))
  {
    TrimKeepsHead("elevated_pct      =", " " + elevatedValue);
    TrimKeepsHead("full_critical_pct =", " " + fullValue);
    var n := NewFor(elevatedValue, fullValue);
    assert n.elevated == "elevated_pct      =" + (" " + elevatedValue);
    assert n.full == "full_critical_pct =" + (" " + fullValue);
    KeyHead(n.elevated, "elevated_pct      =", ELEVATED);
    KeyHead(n.full, "full_critical_pct =", FULL);
    assert Trim(n.full)[0] == 'f';
  }

  lemma KeyHead(line: string, head: string, key: string)
    requires head <= Trim(line) && key <= head && |key| > 0 && key[0] != '#' && key[0] != '[' && '=' in head
    ensures IsKeyLine(line, key) && !IsHeader(line)
    ensures Trim(line)[0] == key[0]
  {
    var t := Trim(line);
    var k :| 0 <= k < |head| && head[k] == '=';
    assert t[k] == '=';
    assert t[0] == head[0] == key[0];
  }

  // ── rewriting twice is rewriting once ────────────────────────────────────

  lemma Regroup<T>(a: seq<T>, b: seq<T>, c: seq<T>)
    ensures a + (b + c) == a + b + c
    ensures a + [] == a && [] + a == a
  {
  }

  /** What some lines turn into in mid-text, where no tail is added. */
  function Passed(ls: seq<string>, st: State, n: NewLines): seq<string>
  {
    if |ls| == 0 then [] else Emit(st, ls[0], n) + Passed(ls[1..], Advance(st, ls[0]), n)
  }

  function AfterAll(ls: seq<string>, st: State): State
  {
    if |ls| == 0 then st else AfterAll(ls[1..], Advance(st, ls[0]))
  }

  lemma {:induction false} PatchAppend(xs: seq<string>, rest: seq<string>, st: State, n: NewLines)
    ensures PatchFrom(xs + rest, st, n) == Passed(xs, st, n) + PatchFrom(rest, AfterAll(xs, st), n)
  {
    hide Emit, Advance;
    if |xs| == 0 {
      Regroup(rest, [], []);
      Regroup(PatchFrom(rest, st, n), [], []);
    } else {
      var next := Advance(st, xs[0]);
      PatchAppend(xs[1..], rest, next, n);
      assert (xs + rest)[0] == xs[0] && (xs + rest)[1..] == xs[1..] + rest;
      Regroup(Emit(st, xs[0], n), Passed(xs[1..], next, n), PatchFrom(rest, AfterAll(xs, st), n));
    }
  }

  lemma {:induction false} PassedAppend(xs: seq<string>, ys: seq<string>, st: State, n: NewLines)
    ensures Passed(xs + ys, st, n) == Passed(xs, st, n) + Passed(ys, AfterAll(xs, st), n)
    ensures AfterAll(xs + ys, st) == AfterAll(ys, AfterAll(xs, st))
  {
    hide Emit, Advance;
    if |xs| == 0 {
      Regroup(ys, [], []);
      Regroup(Passed(ys, st, n), [], []);
    } else {
      var next := Advance(st, xs[0]);
      PassedAppend(xs[1..], ys, next, n);
      assert (xs + ys)[0] == xs[0] && (xs + ys)[1..] == xs[1..] + ys;
      Regroup(Emit(st, xs[0], n), Passed(xs[1..], next, n), Passed(ys, AfterAll(xs, st), n));
    }
  }

  lemma PassedOne(l: string, st: State, n: NewLines)
    ensures Passed([l], st, n) == Emit(st, l, n) && AfterAll([l], st) == Advance(st, l)
  {
    assert [l][1..] == [];
    hide Emit, Advance;
  }

  /** A second pass has found at least what the first one had at the same place. */
  ghost predicate Follows(first: State, second: State)
  {
    && second.inPsi == first.inPsi
    && (first.foundElevated ==> second.foundElevated)
    && (first.foundFull ==> second.foundFull)
  }

  function Filled(st: State): State { if st.inPsi then State(true, true, true) else st }

  lemma KeyLinesAdvance(st: State, n: NewLines)
    requires Recognised(n) && st.inPsi
    ensures Passed([n.elevated], st, n) == [n.elevated] && AfterAll([n.elevated], st) == st.(foundElevated := true)
    ensures Passed([n.full], st, n) == [n.full] && AfterAll([n.full], st) == st.(foundFull := true)
  {
    PassedOne(n.elevated, st, n);
    PassedOne(n.full, st, n);
    hide IsHeader, IsKeyLine, Passed, AfterAll;
  }

  /** Lines the first pass inserted are found by the second. */
  lemma InsertedAreKept(st: State, st2: State, n: NewLines)
    requires Recognised(n) && Follows(st, st2)
    ensures Passed(Missing(st, n), st2, n) == Missing(st, n) && AfterAll(Missing(st, n), st2) == Filled(st2)
  {
    if st.inPsi {
      KeyLinesAdvance(st2, n);
      KeyLinesAdvance(st2.(foundElevated := true), n);
      PassedAppend([n.elevated], [n.full], st2, n);
      Regroup([n.elevated], [], []);
      Regroup([n.full], [], []);
    }
    PassedNone(st2, n);
    hide Passed, AfterAll, Recognised;
  }

  lemma PassedNone(st: State, n: NewLines)
    ensures Passed([], st, n) == [] && AfterAll([], st) == st
  {
  }

  /** Whatever the first pass emits for a line, the second emits again. */
  lemma EmittedAreKept(st: State, st2: State, line: string, n: NewLines)
    requires Recognised(n) && Follows(st, st2)
    ensures Passed(Emit(st, line, n), st2, n) == Emit(st, line, n)
    ensures Follows(Advance(st, line), AfterAll(Emit(st, line, n), st2))
  {
    hide IsHeader, IsKeyLine, IsPsiHeader, Recognised;
    if IsHeader(line) {
      HeaderIsKept(st, st2, line, n);
    } else if st.inPsi && (IsKeyLine(line, ELEVATED) || IsKeyLine(line, FULL)) {
      KeyLinesAdvance(st2, n);
      hide Passed, AfterAll;
    } else {
      PassedOne(line, st2, n);
      hide Passed, AfterAll;
    }
  }

  lemma HeaderIsKept(st: State, st2: State, line: string, n: NewLines)
    requires Recognised(n) && Follows(st, st2) && IsHeader(line)
    ensures Passed(Emit(st, line, n), st2, n) == Emit(st, line, n)
    ensures Follows(Advance(st, line), AfterAll(Emit(st, line, n), st2))
  {
    hide IsHeader, IsKeyLine, IsPsiHeader, Recognised, Passed, AfterAll;
    var m := Missing(st, n);
    InsertedAreKept(st, st2, n);
    PassedAppend(m, [line], st2, n);
    PassedOne(line, Filled(st2), n);
    Regroup([line], [], []);
  }

  lemma {:induction false} SecondPassChangesNothing(ls: seq<string>, st: State, st2: State, n: NewLines)
    requires Recognised(n) && Follows(st, st2)
    ensures PatchFrom(PatchFrom(ls, st, n), st2, n) == PatchFrom(ls, st, n)
  {
    hide Emit, Advance, Recognised, Follows, Passed, AfterAll;
    if |ls| == 0 {
      InsertedAreKept(st, st2, n);
      PatchAppend(Missing(st, n), [], st2, n);
      FilledLacksNothing(st2, n);
      Regroup(Missing(st, n), [], []);
    } else {
      var next := Advance(st, ls[0]);
      var out := Emit(st, ls[0], n);
      EmittedAreKept(st, st2, ls[0], n);
      PatchAppend(out, PatchFrom(ls[1..], next, n), st2, n);
      SecondPassChangesNothing(ls[1..], next, AfterAll(out, st2), n);
    }
  }

  lemma FilledLacksNothing(st: State, n: NewLines)
    ensures PatchFrom([], Filled(st), n) == []
  {
  }

  // ── on whole texts ───────────────────────────────────────────────────────

  /** On LF text the rewriter works line by line, also where it appends. */
  lemma PatchedIsLineByLine(content: string, n: NewLines)
    requires '\r' !in content
    ensures Patched(content, n) == Unlines(PatchLines(Lines(content), n))
  {
    var ls := Lines(content);
    UnlinesOfLines(content);
    UnlinesAppend(ls, NewBlock(n));
    BlockIsText(n);
    hide HasPsi, Lines, Unlines, NewBlock, BlockText;
  }

  lemma BlockIsText(n: NewLines)
    ensures Unlines(NewBlock(n)) == BlockText(n)
  {
    assert NewBlock(n)[1..] == ["[psi]", n.elevated, n.full];
    assert NewBlock(n)[1..][1..] == [n.elevated, n.full];
    assert NewBlock(n)[1..][1..][1..] == [n.full];
    assert NewBlock(n)[1..][1..][1..][1..] == [];
    assert Unlines([n.full]) == n.full + "\n" + Unlines([]);
    assert Unlines([n.elevated, n.full]) == n.elevated + "\n" + Unlines([n.full]);
    assert Unlines(["[psi]", n.elevated, n.full]) == "[psi]" + "\n" + Unlines([n.elevated, n.full]);
    assert Unlines(NewBlock(n)) == "" + "\n" + Unlines(["[psi]", n.elevated, n.full]);
  }

  lemma {:induction false} PatchedIsOneLine(ls: seq<string>, st: State, n: NewLines)
    requires AllOneLine(ls) && OneLine(n.elevated) && OneLine(n.full)
    ensures AllOneLine(PatchFrom(ls, st, n))
  {
    hide OneLine, IsHeader, IsKeyLine, IsPsiHeader;
    if |ls| > 0 {
      PatchedIsOneLine(ls[1..], Advance(st, ls[0]), n);
    }
  }

  lemma PsiInAppend(xs: seq<string>, ys: seq<string>)
    ensures HasPsi(xs) || HasPsi(ys) ==> HasPsi(xs + ys)
  {
    hide IsPsiHeader;
    if HasPsi(xs) {
      var i :| 0 <= i < |xs| && IsPsiHeader(xs[i]);
      assert (xs + ys)[i] == xs[i];
    } else if HasPsi(ys) {
      var i :| 0 <= i < |ys| && IsPsiHeader(ys[i]);
      assert (xs + ys)[|xs| + i] == ys[i];
    }
  }

  lemma PsiIsEmitted(line: string, st: State, n: NewLines)
    ensures IsPsiHeader(line) ==> HasPsi(Emit(st, line, n))
  {
    if IsPsiHeader(line) {
      PsiIsHeader(line);
      var out := Emit(st, line, n);
      assert out[|out| - 1] == line;
    }
    hide IsPsiHeader, IsHeader, Missing;
  }

  lemma HasPsiSplits(ls: seq<string>)
    requires |ls| > 0
    ensures HasPsi(ls) <==> IsPsiHeader(ls[0]) || HasPsi(ls[1..])
  {
    hide IsPsiHeader;
    assert ls == [ls[0]] + ls[1..];
    PsiInAppend([ls[0]], ls[1..]);
    if IsPsiHeader(ls[0]) {
      assert IsPsiHeader([ls[0]][0]);
    }
    if HasPsi(ls) && !IsPsiHeader(ls[0]) {
      var i :| 0 <= i < |ls| && IsPsiHeader(ls[i]);
      assert ls[1..][i - 1] == ls[i];
    }
  }

  lemma {:induction false} PsiStays(ls: seq<string>, st: State, n: NewLines)
    requires HasPsi(ls)
    ensures HasPsi(PatchFrom(ls, st, n))
  {
    var next := Advance(st, ls[0]);
    var (out, rest) := (Emit(st, ls[0], n), PatchFrom(ls[1..], next, n));
    assert PatchFrom(ls, st, n) == out + rest;
    hide *;
    HasPsiSplits(ls);
    PsiInAppend(out, rest);
    PsiIsEmitted(ls[0], st, n);
    if HasPsi(ls[1..]) {
      PsiStays(ls[1..], next, n);
    }
  }

  lemma PsiIsHeader(line: string)
    requires IsPsiHeader(line)
    ensures IsHeader(line)
  {
  }

  /** Lines outside any psi section are copied, so a text without one is. */
  lemma {:induction false} PlainLinesPass(ls: seq<string>, n: NewLines)
    requires !HasPsi(ls)
    ensures Passed(ls, START, n) == ls && AfterAll(ls, START) == START
  {
    hide IsHeader, IsKeyLine, IsPsiHeader;
    if |ls| > 0 {
      assert !IsPsiHeader(ls[0]);
      assert forall i :: 0 <= i < |ls| - 1 ==> ls[1..][i] == ls[i + 1];
      PlainLinesPass(ls[1..], n);
      assert Emit(START, ls[0], n) == [ls[0]] && Advance(START, ls[0]) == START;
      assert ls == [ls[0]] + ls[1..];
    }
  }

  lemma BlockIsKept(n: NewLines)
    requires Recognised(n)
    ensures PatchFrom(NewBlock(n), START, n) == NewBlock(n)
  {
    TrimNothing("[psi]");
    assert IsPsiHeader("[psi]") && IsHeader("[psi]");
    assert Trim("") == "";
    assert !IsHeader("");
    var (head, keys) := (["", "[psi]"], [n.elevated, n.full]);
    assert NewBlock(n) == head + keys && keys == [n.elevated] + [n.full];
    PassedOne("", START, n);
    PassedOne("[psi]", START, n);
    assert head == [""] + ["[psi]"];
    hide IsHeader, IsKeyLine, IsPsiHeader, Recognised;
    assert Advance(START, "") == START && Emit(START, "", n) == [""];
    assert Emit(START, "[psi]", n) == ["[psi]"] && Advance(START, "[psi]") == State(true, false, false);
    hide Passed, AfterAll, PatchFrom;
    PassedAppend([""], ["[psi]"], START, n);
    KeysAreKept(n);
    PassedAppend(head, keys, START, n);
    PatchAppend(head + keys, [], START, n);
    PatchFromEnd(State(true, true, true), n);
    Regroup(head + keys, [], []);
  }

  lemma KeysAreKept(n: NewLines)
    requires Recognised(n)
    ensures Passed([n.elevated, n.full], State(true, false, false), n) == [n.elevated, n.full]
    ensures AfterAll([n.elevated, n.full], State(true, false, false)) == State(true, true, true)
  {
    KeyLinesAdvance(State(true, false, false), n);
    KeyLinesAdvance(State(true, true, false), n);
    PassedAppend([n.elevated], [n.full], State(true, false, false), n);
    hide Passed, AfterAll;
    assert [n.elevated, n.full] == [n.elevated] + [n.full];
  }

  lemma LinesTwice(ls: seq<string>, n: NewLines)
    requires Recognised(n)
    ensures PatchLines(PatchLines(ls, n), n) == PatchLines(ls, n)
  {
    hide IsPsiHeader;
    if HasPsi(ls) {
      PsiStays(ls, START, n);
      SecondPassChangesNothing(ls, START, START, n);
    } else {
      var once := ls + NewBlock(n);
      BlockHasPsi(ls, n);
      PlainLinesPass(ls, n);
      PatchAppend(ls, NewBlock(n), START, n);
      BlockIsKept(n);
    }
  }

  lemma BlockHasPsi(ls: seq<string>, n: NewLines)
    ensures HasPsi(ls + NewBlock(n))
  {
    TrimNothing("[psi]");
    assert (ls + NewBlock(n))[|ls| + 1] == "[psi]";
  }

  /** Applying a suggestion twice is applying it once. */
  lemma PatchIsIdempotent(content: string, elevatedValue: string, fullValue: string)
    requires '\r' !in content && OneLine(elevatedValue) && OneLine(fullValue)
    ensures var n := NewFor(elevatedValue, fullValue); Patched(Patched(content, n), n) == Patched(content, n)
  {
    NewAreOneLine(elevatedValue, fullValue);
    hide *;
    var n := NewFor(elevatedValue, fullValue);
    NewLinesAreRecognised(elevatedValue, fullValue);
    UnlinesOfLines(content);
    var ls := Lines(content);
    var once := PatchLines(ls, n);
    PatchedIsLineByLine(content, n);
    OnceIsOneLine(ls, n);
    LinesOfUnlines(once);
    NoCarriageReturn(once);
    PatchedIsLineByLine(Unlines(once), n);
    LinesTwice(ls, n);
  }

  lemma NewAreOneLine(elevatedValue: string, fullValue: string)
    requires OneLine(elevatedValue) && OneLine(fullValue)
    ensures var n := NewFor(elevatedValue, fullValue); OneLine(n.elevated) && OneLine(n.full)
  {
    assert OneLine("elevated_pct      = ");
    assert OneLine("full_critical_pct = ");
    hide OneLine;
    OneLineAppend("elevated_pct      = ", elevatedValue);
    OneLineAppend("full_critical_pct = ", fullValue);
  }

  lemma OneLineAppend(a: string, b: string)
    requires OneLine(a) && OneLine(b)
    ensures OneLine(a + b)
  {
  }

  lemma OnceIsOneLine(ls: seq<string>, n: NewLines)
    requires AllOneLine(ls) && OneLine(n.elevated) && OneLine(n.full)
    ensures AllOneLine(PatchLines(ls, n))
  {
    PatchedIsOneLine(ls, START, n);
    hide HasPsi, PatchFrom;
  }

  lemma {:induction false} NoCarriageReturn(ls: seq<string>)
    requires AllOneLine(ls)
    ensures '\r' !in Unlines(ls)
  {
    if |ls| > 0 {
      NoCarriageReturn(ls[1..]);
      assert OneLine(ls[0]);
    }
  }

  // ── what is kept ─────────────────────────────────────────────────────────

  /** The lines picked by a test that may depend on being inside a psi section, as the
      rewriter sees sections. */
  ghost function Select(ls: seq<string>, inPsi: bool, keep: (bool, string) -> bool): seq<string>
  {
    if |ls| == 0 then []
    else (if keep(inPsi, ls[0]) then [ls[0]] else []) + Select(ls[1..], PsiAfter(ls[0], inPsi), keep)
  }

  function PsiAfter(line: string, inPsi: bool): bool { if IsHeader(line) then IsPsiHeader(line) else inPsi }

  function PsiAfterAll(ls: seq<string>, inPsi: bool): bool
  {
    if |ls| == 0 then inPsi else PsiAfterAll(ls[1..], PsiAfter(ls[0], inPsi))
  }

  lemma {:induction false} SelectAppend(xs: seq<string>, ys: seq<string>, inPsi: bool, keep: (bool, string) -> bool)
    ensures Select(xs + ys, inPsi, keep) == Select(xs, inPsi, keep) + Select(ys, PsiAfterAll(xs, inPsi), keep)
  {
    hide PsiAfter;
    if |xs| == 0 {
      Regroup(ys, [], []);
      Regroup(Select(ys, inPsi, keep), [], []);
    } else {
      var next := PsiAfter(xs[0], inPsi);
      SelectAppend(xs[1..], ys, next, keep);
      assert (xs + ys)[0] == xs[0] && (xs + ys)[1..] == xs[1..] + ys;
      Regroup(if keep(inPsi, xs[0]) then [xs[0]] else [], Select(xs[1..], next, keep), Select(ys, PsiAfterAll(xs, inPsi), keep));
    }
  }

  lemma {:induction false} PsiAfterAppend(xs: seq<string>, ys: seq<string>, inPsi: bool)
    ensures PsiAfterAll(xs + ys, inPsi) == PsiAfterAll(ys, PsiAfterAll(xs, inPsi))
  {
    hide PsiAfter;
    if |xs| == 0 {
      Regroup(ys, [], []);
    } else {
      PsiAfterAppend(xs[1..], ys, PsiAfter(xs[0], inPsi));
      assert (xs + ys)[0] == xs[0] && (xs + ys)[1..] == xs[1..] + ys;
    }
  }

  lemma SelectOne(l: string, inPsi: bool, keep: (bool, string) -> bool)
    ensures Select([l], inPsi, keep) == if keep(inPsi, l) then [l] else []
    ensures PsiAfterAll([l], inPsi) == PsiAfter(l, inPsi)
  {
    assert [l][1..] == [];
  }

  /** Lines without a header among them stay in their section, and are picked all
      or none when the test says the same of each. */
  lemma {:induction false} SelectPlain(xs: seq<string>, inPsi: bool, keep: (bool, string) -> bool, all: bool)
    requires forall i :: 0 <= i < |xs| ==> !IsHeader(xs[i]) && keep(inPsi, xs[i]) == all
    ensures PsiAfterAll(xs, inPsi) == inPsi
    ensures Select(xs, inPsi, keep) == if all then xs else []
  {
    hide IsHeader, IsPsiHeader;
    if |xs| > 0 {
      assert !IsHeader(xs[0]);
      assert forall i :: 0 <= i < |xs| - 1 ==> xs[1..][i] == xs[i + 1];
      SelectPlain(xs[1..], inPsi, keep, all);
      assert xs == [xs[0]] + xs[1..];
    }
  }

  predicate Copied(inPsi: bool, line: string) { !(inPsi && IsRewritten(line)) }

  predicate Live(inPsi: bool, line: string) { inPsi && IsRewritten(line) }

  /** What one line turns into: the section is the same afterwards, a copied line is
      copied, and live lines are the new ones. */
  lemma EmittedSelect(line: string, st: State, n: NewLines)
    requires Recognised(n)
    ensures PsiAfter(line, st.inPsi) == Advance(st, line).inPsi == PsiAfterAll(Emit(st, line, n), st.inPsi)
    ensures Select(Emit(st, line, n), st.inPsi, Copied) == if Copied(st.inPsi, line) then [line] else []
    ensures Select(Emit(st, line, n), st.inPsi, Live) ==
      if IsHeader(line) then Missing(st, n)
      else if Live(st.inPsi, line) then [if IsKeyLine(line, ELEVATED) then n.elevated else n.full]
      else []
  {
    if IsHeader(line) {
      HeaderSelect(line, st, n);
    } else {
      var out := Emit(st, line, n)[0];
      NewAreLive(n);
      SelectOne(out, st.inPsi, Copied);
      SelectOne(out, st.inPsi, Live);
    }
    hide Select, PsiAfterAll, IsKeyLine, IsPsiHeader, IsHeader, Recognised;
  }

  lemma HeaderSelect(line: string, st: State, n: NewLines)
    requires Recognised(n) && IsHeader(line)
    ensures PsiAfterAll(Emit(st, line, n), st.inPsi) == PsiAfter(line, st.inPsi)
    ensures Select(Emit(st, line, n), st.inPsi, Copied) == [line] && Copied(st.inPsi, line)
    ensures Select(Emit(st, line, n), st.inPsi, Live) == Missing(st, n)
  {
    var m := Missing(st, n);
    hide IsKeyLine, IsPsiHeader, IsHeader, Recognised, Select, PsiAfterAll, Missing, PsiAfter;
    MissingSelect(st, n);
    SelectAppend(m, [line], st.inPsi, Copied);
    SelectAppend(m, [line], st.inPsi, Live);
    PsiAfterAppend(m, [line], st.inPsi);
    SelectOne(line, st.inPsi, Copied);
    SelectOne(line, st.inPsi, Live);
    Regroup([line], [], []);
    Regroup(m, [], []);
  }

  lemma NewAreLive(n: NewLines)
    requires Recognised(n)
    ensures Live(true, n.elevated) && Live(true, n.full) && !Copied(true, n.elevated) && !Copied(true, n.full)
    ensures !IsHeader(n.elevated) && !IsHeader(n.full)
  {
    hide IsKeyLine, IsHeader;
  }

  lemma MissingSelect(st: State, n: NewLines)
    requires Recognised(n)
    ensures Select(Missing(st, n), st.inPsi, Copied) == [] && Select(Missing(st, n), st.inPsi, Live) == Missing(st, n)
    ensures PsiAfterAll(Missing(st, n), st.inPsi) == st.inPsi
  {
    NewAreLive(n);
    hide IsKeyLine, IsHeader, Recognised, Live, Copied;
    SelectPlain(Missing(st, n), st.inPsi, Copied, false);
    SelectPlain(Missing(st, n), st.inPsi, Live, true);
  }

  /** The other lines are kept, all of them, in order. */
  lemma {:induction false} OtherLinesStay(ls: seq<string>, st: State, n: NewLines)
    requires Recognised(n)
    ensures Select(PatchFrom(ls, st, n), st.inPsi, Copied) == Select(ls, st.inPsi, Copied)
  {
    hide Emit, Advance, Copied, PsiAfter, Missing;
    if |ls| == 0 {
      MissingSelect(st, n);
    } else {
      var out := Emit(st, ls[0], n);
      var rest := PatchFrom(ls[1..], Advance(st, ls[0]), n);
      EmittedSelect(ls[0], st, n);
      SelectAppend(out, rest, st.inPsi, Copied);
      OtherLinesStay(ls[1..], Advance(st, ls[0]), n);
    }
  }

  /** Every live key line is a new one. */
  lemma {:induction false} LiveLinesAreNew(ls: seq<string>, st: State, n: NewLines)
    requires Recognised(n)
    ensures forall l :: l in Select(PatchFrom(ls, st, n), st.inPsi, Live) ==> l == n.elevated || l == n.full
  {
    if |ls| == 0 {
      MissingSelect(st, n);
      hide Recognised, Live, Select;
    } else {
      var out := Emit(st, ls[0], n);
      var next := Advance(st, ls[0]);
      var rest := PatchFrom(ls[1..], next, n);
      assert PatchFrom(ls, st, n) == out + rest;
      hide *;
      LineGivesNew(ls[0], st, n);
      SelectAppend(out, rest, st.inPsi, Live);
      LiveLinesAreNew(ls[1..], next, n);
    }
  }

  lemma LineGivesNew(line: string, st: State, n: NewLines)
    requires Recognised(n)
    ensures forall l :: l in Select(Emit(st, line, n), st.inPsi, Live) ==> l == n.elevated || l == n.full
    ensures PsiAfterAll(Emit(st, line, n), st.inPsi) == Advance(st, line).inPsi
    ensures !st.foundElevated ==>
              || n.elevated in Select(Emit(st, line, n), st.inPsi, Live)
              || (!Advance(st, line).foundElevated && (st.inPsi ==> Advance(st, line).inPsi))
    ensures !st.foundFull ==>
              || n.full in Select(Emit(st, line, n), st.inPsi, Live)
              || (!Advance(st, line).foundFull && (st.inPsi ==> Advance(st, line).inPsi))
  {
    EmittedSelect(line, st, n);
    hide IsKeyLine, IsHeader, IsPsiHeader, Recognised, Select, PsiAfterAll, Emit;
  }

  /** And a text with a psi section has one of each. */
  lemma {:induction false} KeysArePresent(ls: seq<string>, st: State, n: NewLines)
    requires Recognised(n) && (st.inPsi || HasPsi(ls))
    ensures !st.foundElevated ==> n.elevated in Select(PatchFrom(ls, st, n), st.inPsi, Live)
    ensures !st.foundFull ==> n.full in Select(PatchFrom(ls, st, n), st.inPsi, Live)
  {
    if |ls| == 0 {
      MissingSelect(st, n);
      hide Recognised, Live, Select;
    } else {
      var out := Emit(st, ls[0], n);
      var next := Advance(st, ls[0]);
      var rest := PatchFrom(ls[1..], next, n);
      assert PatchFrom(ls, st, n) == out + rest;
      hide *;
      LineGivesNew(ls[0], st, n);
      PsiAhead(ls, st);
      SelectAppend(out, rest, st.inPsi, Live);
      if next.inPsi || HasPsi(ls[1..]) {
        KeysArePresent(ls[1..], next, n);
      }
    }
  }

  lemma PsiAhead(ls: seq<string>, st: State)
    requires |ls| > 0
    ensures HasPsi(ls) ==> Advance(st, ls[0]).inPsi || HasPsi(ls[1..])
  {
    HasPsiSplits(ls);
    hide HasPsi;
    if IsPsiHeader(ls[0]) {
      PsiIsHeader(ls[0]);
    }
    hide IsPsiHeader, IsHeader;
  }

  lemma {:induction false} PlainStaysOutside(ls: seq<string>)
    requires !HasPsi(ls)
    ensures PsiAfterAll(ls, false) == false
    ensures Select(ls, false, Copied) == ls
  {
    hide IsHeader, IsPsiHeader, IsRewritten;
    if |ls| > 0 {
      assert !IsPsiHeader(ls[0]);
      assert forall i :: 0 <= i < |ls| - 1 ==> ls[1..][i] == ls[i + 1];
      PlainStaysOutside(ls[1..]);
      assert ls == [ls[0]] + ls[1..];
    }
  }

  lemma BlockSelect(n: NewLines)
    requires Recognised(n)
    ensures Select(NewBlock(n), false, Copied) == ["", "[psi]"]
  {
    TrimNothing("[psi]");
    assert IsPsiHeader("[psi]") && IsHeader("[psi]");
    assert Trim("") == "";
    assert !IsHeader("");
    NewAreLive(n);
    var (head, keys) := (["", "[psi]"], [n.elevated, n.full]);
    assert NewBlock(n) == head + keys && head == [""] + ["[psi]"];
    hide IsHeader, IsPsiHeader, Recognised, Live;
    SelectOne("", false, Copied);
    SelectOne("[psi]", false, Copied);
    assert Copied(false, "") && Copied(false, "[psi]");
    hide Copied, Select, PsiAfterAll, NewBlock;
    SelectAppend([""], ["[psi]"], false, Copied);
    PsiAfterAppend([""], ["[psi]"], false);
    SelectAppend(head, keys, false, Copied);
    SelectPlain(keys, true, Copied, false);
    Regroup(head, [], []);
  }

  // ── what the new lines say ───────────────────────────────────────────────

  /** The value a line gives a key, as a reader of the file sees it. */
  function ValueOf(line: string, key: string): Option<string>
  {
    var t := Trim(line);
    if !StartsWith(t, key) || !StartsWith(TrimStart(t[|key|..]), "=") then None
    else Some(Trim(TrimStart(t[|key|..])[1..]))
  }

  /** Each new line gives its own key its own value. */
  lemma NewLinesSay(elevatedValue: string, fullValue: string)
    requires IsPlain(elevatedValue) && IsPlain(fullValue)
    ensures var n := NewFor(elevatedValue, fullValue);
      && ValueOf(n.elevated, "elevated_pct") == Some(elevatedValue) && ValueOf(n.full, "elevated_pct") == None
      && ValueOf(n.full, "full_critical_pct") == Some(fullValue) && ValueOf(n.elevated, "full_critical_pct") == None
  {
    var n := NewFor(elevatedValue, fullValue);
    assert n.elevated == ELEVATED + "      " + "=" + (" " + elevatedValue);
    assert n.full == FULL + " " + "=" + (" " + fullValue);
    LineSays(ELEVATED, "      ", elevatedValue);
    LineSays(FULL, " ", fullValue);
    assert ELEVATED[0] == 'e' && FULL[0] == 'f';
    hide NewFor;
  }

  /** Neither starts nor ends with a space, like a number. */
  predicate IsPlain(value: string) { |value| > 0 && !IsSpace(value[0]) && !IsSpace(value[|value| - 1]) }

  lemma LineSays(key: string, pad: string, value: string)
    requires |key| > 0 && !IsSpace(key[0]) && (forall c :: c in pad ==> IsSpace(c)) && IsPlain(value)
    ensures var line := key + pad + "=" + (" " + value);
      Trim(line) == line && ValueOf(line, key) == Some(value)
  {
    var rest := " " + value;
    var line := key + pad + "=" + rest;
    assert line[0] == key[0] && line[|line| - 1] == value[|value| - 1];
    TrimNothing(line);
    assert line[..|key|] == key;
    assert line[|key|..] == pad + ("=" + rest);
    TrimStartSkips(pad, "=" + rest);
    assert TrimStart("=" + rest) == "=" + rest;
    assert ("=" + rest)[1..] == rest;
    TrimSpaceBefore(value);
  }

  lemma TrimSpaceBefore(value: string)
    requires IsPlain(value)
    ensures Trim(" " + value) == value
  {
    TrimStartSkips(" ", value);
    TrimNothing(value);
    assert TrimStart(value) == value;
  }

  /** What `--passive-apply` does to a configuration, line by line: all other lines
      stay in order (a missing section is appended), every live key line of a psi
      section is the new one, and there is one of each. */
  lemma PatchRenewsKeysOnly(ls: seq<string>, n: NewLines)
    requires Recognised(n)
    ensures var out := PatchLines(ls, n);
      && Select(out, false, Copied) == Select(ls, false, Copied) + (if HasPsi(ls) then [] else ["", "[psi]"])
      && (forall l :: l in Select(out, false, Live) ==> l == n.elevated || l == n.full)
      && n.elevated in Select(out, false, Live) && n.full in Select(out, false, Live)
  {
    var out := PatchLines(ls, n);
    if HasPsi(ls) {
      OtherLinesStay(ls, START, n);
      LiveLinesAreNew(ls, START, n);
      KeysArePresent(ls, START, n);
      Regroup(Select(ls, false, Copied), [], []);
    } else {
      LinesTwice(ls, n);
      BlockHasPsi(ls, n);
      LiveLinesAreNew(out, START, n);
      KeysArePresent(out, START, n);
      SelectAppend(ls, NewBlock(n), false, Copied);
      PlainStaysOutside(ls);
      BlockSelect(n);
    }
    hide HasPsi, Recognised, Select, Copied, Live, NewBlock, PatchFrom, PsiAfterAll;
  }

  // ── what a reader of the file calls content ──────────────────────────────

  /** The line really assigns the key. */
  predicate Assigns(line: string, key: string)
  {
    StartsWith(Trim(line), key) && StartsWith(TrimStart(Trim(line)[|key|..]), "=")
  }

  predicate IsAssignment(line: string) { IsRewritten(line) && (Assigns(line, ELEVATED) || Assigns(line, FULL)) }

  function HashAt(line: string): (k: nat)
    ensures k <= |line| && '#' !in line[..k] && (k < |line| ==> line[k] == '#')
  {
    if |line| == 0 || line[0] == '#' then 0
    else
      var k := HashAt(line[1..]);
      assert line[..k + 1] == [line[0]] + line[1..][..k];
      k + 1
  }

  /** The line without its comment. */
  function Bare(line: string): string { line[..HashAt(line)] }

  function Comment(line: string): seq<string> { if HashAt(line) < |line| then [line[HashAt(line)..]] else [] }

  predicate EndsWith(s: string, c: char) { |s| > 0 && s[|s| - 1] == c }

  /** A table header, with or without a comment after it. */
  predicate IsTable(line: string)
  {
    var t := Trim(line);
    StartsWith(t, "[") && (EndsWith(t, ']') || EndsWith(TrimEnd(Bare(t)), ']'))
  }

  /** The header of the psi table, in any spelling. */
  predicate IsPsiTable(line: string)
  {
    var bare := TrimEnd(Bare(Trim(line)));
    IsTable(line) && |bare| >= 2 && Trim(bare[1..|bare| - 1]) in {"psi", "'psi'", "\"psi\""}
  }

  predicate TableAfter(line: string, inTable: bool) { if IsTable(line) then IsPsiTable(line) else inTable }

  /** All there is to preserve: every line but the assignments of the two keys in a
      psi table, and the comments of those. */
  function Piece(inTable: bool, line: string): seq<string>
  {
    if inTable && IsAssignment(line) then Comment(line) else [line]
  }

  function Content(ls: seq<string>, inTable: bool): seq<string>
  {
    if |ls| == 0 then [] else Piece(inTable, ls[0]) + Content(ls[1..], TableAfter(ls[0], inTable))
  }

  function TableAfterAll(ls: seq<string>, inTable: bool): bool
  {
    if |ls| == 0 then inTable else TableAfterAll(ls[1..], TableAfter(ls[0], inTable))
  }

  lemma {:induction false} ContentAppend(xs: seq<string>, ys: seq<string>, inTable: bool)
    ensures Content(xs + ys, inTable) == Content(xs, inTable) + Content(ys, TableAfterAll(xs, inTable))
    ensures TableAfterAll(xs + ys, inTable) == TableAfterAll(ys, TableAfterAll(xs, inTable))
  {
    hide TableAfter, Piece;
    if |xs| == 0 {
      Regroup(ys, [], []);
      Regroup(Content(ys, inTable), [], []);
    } else {
      var next := TableAfter(xs[0], inTable);
      ContentAppend(xs[1..], ys, next);
      assert (xs + ys)[0] == xs[0] && (xs + ys)[1..] == xs[1..] + ys;
      Regroup(Piece(inTable, xs[0]), Content(xs[1..], next), Content(ys, TableAfterAll(xs, inTable)));
    }
  }

  lemma ContentOne(line: string, inTable: bool)
    ensures Content([line], inTable) == Piece(inTable, line) && TableAfterAll([line], inTable) == TableAfter(line, inTable)
  {
    assert [line][1..] == [];
    hide Piece, TableAfter;
  }

  /** New lines as `NewFor` makes them of values without a comment. */
  ghost predicate Clean(n: NewLines)
  {
    Recognised(n) && IsAssignment(n.elevated) && IsAssignment(n.full) && '#' !in n.elevated && '#' !in n.full
  }

  lemma CleanMeans(n: NewLines)
    requires Clean(n)
    ensures Recognised(n)
    ensures Content([n.elevated], true) == [] == Content([n.full], true)
    ensures Content([n.elevated], false) == [n.elevated] && Content([n.full], false) == [n.full]
    ensures forall inTable :: TableAfterAll([n.elevated], inTable) == inTable == TableAfterAll([n.full], inTable)
  {
    forall inTable ensures TableAfterAll([n.elevated], inTable) == inTable == TableAfterAll([n.full], inTable) {
      ContentOne(n.elevated, inTable);
      ContentOne(n.full, inTable);
      KeyLineIsNoTable(n.elevated);
      KeyLineIsNoTable(n.full);
    }
    ContentOne(n.elevated, true);
    ContentOne(n.full, true);
    ContentOne(n.elevated, false);
    ContentOne(n.full, false);
    hide Content, TableAfterAll, IsAssignment, Recognised, IsTable;
  }

  lemma KeyLineIsNoTable(line: string)
    requires IsKeyLine(line, ELEVATED) || IsKeyLine(line, FULL)
    ensures !IsTable(line) && !IsPsiTable(line)
  {
    assert Trim(line)[0] == 'e' || Trim(line)[0] == 'f';
    hide Trim, TrimEnd, Bare;
  }

  // ── is all of it preserved? ──────────────────────────────────────────────

  /** The rewriter replaces nothing of this line that is content, and inserts keys
      before it in a psi table only. */
  predicate Harmless(line: string, st: State, inTable: bool, n: NewLines)
  {
    if IsHeader(line) then inTable || Missing(st, n) == []
    else if st.inPsi && IsRewritten(line) then
      if inTable then IsAssignment(line) && '#' !in line
      else line == if IsKeyLine(line, ELEVATED) then n.elevated else n.full
    else true
  }

  predicate AllHarmless(ls: seq<string>, st: State, inTable: bool, n: NewLines)
  {
    if |ls| == 0 then inTable || Missing(st, n) == []
    else
      && Harmless(ls[0], st, inTable, n)
      && AllHarmless(ls[1..], Advance(st, ls[0]), TableAfter(ls[0], inTable), n)
  }

  /** New lines among some content less other lines. A pass never lowers it. */
  ghost function Score(content: seq<string>, n: NewLines): int
  {
    if |content| == 0 then 0
    else (if content[0] == n.elevated || content[0] == n.full then 1 else -1) + Score(content[1..], n)
  }

  lemma {:induction false} ScoreAppend(a: seq<string>, b: seq<string>, n: NewLines)
    ensures Score(a + b, n) == Score(a, n) + Score(b, n)
  {
    if |a| == 0 {
      assert a + b == b;
    } else {
      assert (a + b)[1..] == a[1..] + b;
      ScoreAppend(a[1..], b, n);
    }
  }

  lemma ScoreOne(line: string, n: NewLines)
    ensures Score([line], n) == if line == n.elevated || line == n.full then 1 else -1
    ensures Score([], n) == 0
  {
    assert [line][1..] == [];
  }

  /** What one pass step does to content: nothing exactly when it is harmless. */
  ghost predicate Changes(before: seq<string>, after: seq<string>, harmless: bool, n: NewLines)
  {
    if harmless then after == before else Score(after, n) > Score(before, n)
  }

  lemma ChangesAppend(a: seq<string>, a': seq<string>, x: bool, b: seq<string>, b': seq<string>, y: bool, n: NewLines)
    requires Changes(a, a', x, n) && Changes(b, b', y, n)
    ensures Changes(a + b, a' + b', x && y, n)
  {
    ScoreAppend(a, b, n);
    ScoreAppend(a', b', n);
    hide Score;
  }

  lemma MissingChanges(st: State, inTable: bool, n: NewLines)
    requires Clean(n)
    ensures Changes([], Content(Missing(st, n), inTable), inTable || Missing(st, n) == [], n)
    ensures TableAfterAll(Missing(st, n), inTable) == inTable
  {
    CleanMeans(n);
    ContentAppend([n.elevated], [n.full], inTable);
    ScoreOne(n.elevated, n);
    ScoreOne(n.full, n);
    ScoreAppend([n.elevated], [n.full], n);
    assert Content([], inTable) == [] && TableAfterAll([], inTable) == inTable;
    hide Content, TableAfterAll, Score, Clean, Recognised;
  }

  lemma LineChanges(line: string, st: State, inTable: bool, n: NewLines)
    requires Clean(n)
    ensures Changes(Piece(inTable, line), Content(Emit(st, line, n), inTable), Harmless(line, st, inTable, n), n)
    ensures TableAfterAll(Emit(st, line, n), inTable) == TableAfter(line, inTable)
  {
    ContentOne(line, inTable);
    if IsHeader(line) {
      HeaderChanges(line, st, inTable, n);
    } else if st.inPsi && IsRewritten(line) {
      KeyLineChanges(line, st, inTable, n);
    }
    hide Piece, TableAfterAll, TableAfter, Content, IsHeader, IsKeyLine, Clean;
  }

  lemma HeaderChanges(line: string, st: State, inTable: bool, n: NewLines)
    requires Clean(n) && IsHeader(line)
    ensures Changes(Piece(inTable, line), Content(Emit(st, line, n), inTable), inTable || Missing(st, n) == [], n)
    ensures TableAfterAll(Emit(st, line, n), inTable) == TableAfter(line, inTable)
  {
    var m := Missing(st, n);
    assert Emit(st, line, n) == m + [line];
    hide *;
    MissingChanges(st, inTable, n);
    ContentAppend(m, [line], inTable);
    ContentOne(line, inTable);
    ChangesNothing(Piece(inTable, line), n);
    ChangesAppend([], Content(m, inTable), inTable || m == [], Piece(inTable, line), Piece(inTable, line), true, n);
    Regroup(Piece(inTable, line), [], []);
  }

  lemma ChangesNothing(content: seq<string>, n: NewLines)
    ensures Changes(content, content, true, n)
  {
  }

  lemma KeyLineChanges(line: string, st: State, inTable: bool, n: NewLines)
    requires Clean(n) && st.inPsi && IsRewritten(line)
    ensures Changes(Piece(inTable, line), Content(Emit(st, line, n), inTable), Harmless(line, st, inTable, n), n)
    ensures TableAfterAll(Emit(st, line, n), inTable) == TableAfter(line, inTable)
  {
    CleanMeans(n);
    KeyLineIsNoTable(line);
    ScoreOne(line, n);
    ScoreOne(n.elevated, n);
    ScoreOne(n.full, n);
    if HashAt(line) < |line| {
      assert line[HashAt(line)..][0] == '#';
      ScoreOne(line[HashAt(line)..], n);
    }
    hide Score, Content, TableAfterAll, HashAt, IsHeader, IsKeyLine, Assigns, IsTable;
  }

  lemma {:induction false} PassChanges(ls: seq<string>, st: State, inTable: bool, n: NewLines)
    requires Clean(n)
    ensures Changes(Content(ls, inTable), Content(PatchFrom(ls, st, n), inTable), AllHarmless(ls, st, inTable, n), n)
  {
    hide Clean, Emit, Advance, Harmless, Piece, TableAfter, Missing, Changes, TableAfterAll;
    if |ls| == 0 {
      MissingChanges(st, inTable, n);
    } else {
      var (line, next) := (ls[0], Advance(st, ls[0]));
      var (out, rest) := (Emit(st, line, n), PatchFrom(ls[1..], next, n));
      LineChanges(line, st, inTable, n);
      PassChanges(ls[1..], next, TableAfter(line, inTable), n);
      ContentAppend(out, rest, inTable);
      ChangesAppend(Piece(inTable, line), Content(out, inTable), Harmless(line, st, inTable, n),
                    Content(ls[1..], TableAfter(line, inTable)), Content(rest, TableAfter(line, inTable)),
                    AllHarmless(ls[1..], next, TableAfter(line, inTable), n), n);
    }
  }

  lemma NewAreAssignments(elevatedValue: string, fullValue: string)
    ensures var n := NewFor(elevatedValue, fullValue); IsAssignment(n.elevated) && IsAssignment(n.full)
  {
    var n := NewFor(elevatedValue, fullValue);
    NewLinesAreRecognised(elevatedValue, fullValue);
    AssignsByHead(ELEVATED, "      ", " " + elevatedValue);
    AssignsByHead(FULL, " ", " " + fullValue);
    assert n.elevated == ELEVATED + "      " + "=" + (" " + elevatedValue);
    assert n.full == FULL + " " + "=" + (" " + fullValue);
    hide IsHeader, IsKeyLine, Assigns, NewFor;
  }

  lemma AssignsByHead(key: string, pad: string, value: string)
    requires |key| > 0 && !IsSpace(key[0]) && forall c :: c in pad ==> IsSpace(c)
    ensures Assigns(key + pad + "=" + value, key)
  {
    var head := key + pad + "=";
    assert head[0] == key[0] && head[|head| - 1] == '=';
    TrimKeepsHead(head, value);
    var t := Trim(head + value);
    var rest := t[|head|..];
    assert t == head + rest;
    assert t[|key|..] == pad + ("=" + rest);
    TrimStartSkips(pad, "=" + rest);
    assert TrimStart("=" + rest) == "=" + rest;
    hide Trim, TrimStart;
  }


  lemma {:induction false} PlainIsHarmless(ls: seq<string>, inTable: bool, n: NewLines)
    requires !HasPsi(ls)
    ensures AllHarmless(ls, START, inTable, n)
  {
    hide IsHeader, IsPsiHeader, IsRewritten, IsKeyLine, TableAfter;
    if |ls| > 0 {
      assert !IsPsiHeader(ls[0]);
      assert forall i :: 0 <= i < |ls| - 1 ==> ls[1..][i] == ls[i + 1];
      PlainIsHarmless(ls[1..], TableAfter(ls[0], inTable), n);
    }
  }

  lemma PsiOpensTable()
    ensures IsHeader("[psi]") && IsPsiHeader("[psi]") && IsPsiTable("[psi]")
    ensures forall inTable :: TableAfter("[psi]", inTable)
  {
    PsiHeaderIsTable("[psi]");
  }

  lemma PsiHeaderIsTable(line: string)
    requires IsPsiHeader(line)
    ensures IsPsiTable(line)
  {
    assert HashAt("[psi]") == 5;
    assert Bare("[psi]") == "[psi]";
    assert TrimEnd("[psi]") == "[psi]";
    TrimNothing("psi");
    assert "[psi]"[1..4] == "psi";
  }

  lemma BlockContent(n: NewLines, inTable: bool)
    requires Clean(n)
    ensures Content(NewBlock(n), inTable) == ["", "[psi]"]
  {
    var (head, keys) := (["", "[psi]"], [n.elevated, n.full]);
    assert NewBlock(n) == head + keys && head == [""] + ["[psi]"] && keys == [n.elevated] + [n.full];
    assert Trim("") == "";
    assert Piece(inTable, "") == [""];
    assert !IsTable("");
    PsiOpensTable();
    assert !IsAssignment("[psi]");
    ContentOne("", inTable);
    ContentOne("[psi]", inTable);
    ContentAppend([""], ["[psi]"], inTable);
    ContentAppend(head, keys, inTable);
    CleanMeans(n);
    ContentAppend([n.elevated], [n.full], true);
    hide Content, TableAfterAll, Clean, NewBlock;
    Regroup(head, [], []);
  }

  lemma NewAreClean(elevatedValue: string, fullValue: string)
    requires '#' !in elevatedValue && '#' !in fullValue
    ensures Clean(NewFor(elevatedValue, fullValue))
  {
    NewLinesAreRecognised(elevatedValue, fullValue);
    NewAreAssignments(elevatedValue, fullValue);
    assert '#' !in "elevated_pct      = " && '#' !in "full_critical_pct = ";
    hide Recognised, IsAssignment;
  }

  /** The promise to preserve all other content and comments holds exactly when each
      line replaced was an assignment of its key in a psi table without a comment
      after it, or already the new line, and keys are inserted in psi tables only. */
  lemma ContentPreservedExactly(ls: seq<string>, elevatedValue: string, fullValue: string)
    requires '#' !in elevatedValue && '#' !in fullValue
    ensures var n := NewFor(elevatedValue, fullValue);
      Content(PatchLines(ls, n), false) == Content(ls, false) + (if HasPsi(ls) then [] else ["", "[psi]"])
      <==> AllHarmless(ls, START, false, n)
  {
    var n := NewFor(elevatedValue, fullValue);
    NewAreClean(elevatedValue, fullValue);
    hide NewFor, Clean, Content, AllHarmless, HasPsi, NewBlock, PatchFrom;
    if HasPsi(ls) {
      PassChanges(ls, START, false, n);
      Regroup(Content(ls, false), [], []);
    } else {
      PlainIsHarmless(ls, false, n);
      ContentAppend(ls, NewBlock(n), false);
      BlockContent(n, TableAfterAll(ls, false));
    }
  }

  // ── three ways to lose content ───────────────────────────────────────────

  lemma UnderPsiHeader(rest: seq<string>, elevatedValue: string, fullValue: string)
    requires '#' !in elevatedValue && '#' !in fullValue
    ensures var (ls, n) := (["[psi]"] + rest, NewFor(elevatedValue, fullValue));
      Content(PatchLines(ls, n), false) == Content(ls, false) <==> AllHarmless(rest, State(true, false, false), true, n)
  {
    var (ls, n) := (["[psi]"] + rest, NewFor(elevatedValue, fullValue));
    PsiOpensTable();
    assert ls[0] == "[psi]" && ls[1..] == rest;
    assert HasPsi(ls);
    ContentPreservedExactly(ls, elevatedValue, fullValue);
    Regroup(Content(ls, false), [], []);
    hide IsHeader, IsPsiHeader, IsPsiTable, HasPsi, Content, PatchLines;
  }

  lemma HarmIsLost(line: string, elevatedValue: string, fullValue: string)
    requires '#' !in elevatedValue && '#' !in fullValue
    requires !Harmless(line, State(true, false, false), true, NewFor(elevatedValue, fullValue))
    ensures var (ls, n) := (["[psi]"] + [line], NewFor(elevatedValue, fullValue));
      Content(PatchLines(ls, n), false) != Content(ls, false)
  {
    UnderPsiHeader([line], elevatedValue, fullValue);
    hide Harmless, NewFor, Content, PatchLines, Advance, TableAfter;
  }

  /** A key that merely starts like one of the two is replaced. */
  lemma LookalikeIsLost(elevatedValue: string, fullValue: string)
    requires '#' !in elevatedValue && '#' !in fullValue
    ensures var (ls, n) := (["[psi]"] + ["elevated_pct_extra = 1"], NewFor(elevatedValue, fullValue));
      Content(PatchLines(ls, n), false) != Content(ls, false)
  {
    ExtraIsLookalike();
    hide IsAssignment, IsRewritten, IsHeader, NewFor, PatchLines, Content;
    HarmIsLost("elevated_pct_extra = 1", elevatedValue, fullValue);
  }

  lemma ExtraIsLookalike()
    ensures var line := "elevated_pct_extra = 1"; IsRewritten(line) && !IsHeader(line) && !IsAssignment(line)
  {
    var line := "elevated_pct_extra = 1";
    TrimNothing(line);
    assert line[..12] == ELEVATED;
    assert line[19] == '=';
    KeyHead(line, line, ELEVATED);
    assert line[12..][0] == '_';
    assert !Assigns(line, ELEVATED);
    assert line[0] == 'e';
    assert !Assigns(line, FULL);
  }

  /** A comment after a replaced value is dropped. */
  lemma CommentIsLost(elevatedValue: string, fullValue: string)
    requires '#' !in elevatedValue && '#' !in fullValue
    ensures var (ls, n) := (["[psi]"] + ["elevated_pct = 3.0 # tuned"], NewFor(elevatedValue, fullValue));
      Content(PatchLines(ls, n), false) != Content(ls, false)
  {
    TunedIsRewritten();
    hide IsAssignment, IsRewritten, IsHeader, NewFor, PatchLines, Content;
    HarmIsLost("elevated_pct = 3.0 # tuned", elevatedValue, fullValue);
  }

  lemma TunedIsRewritten()
    ensures var line := "elevated_pct = 3.0 # tuned"; IsRewritten(line) && !IsHeader(line) && '#' in line
  {
    var line := "elevated_pct = 3.0 # tuned";
    TrimNothing(line);
    assert line[..12] == ELEVATED;
    assert line[13] == '=';
    KeyHead(line, line, ELEVATED);
    assert line[19] == '#';
    hide Trim;
  }

  /** A header with a comment after it is not seen, so keys the psi table lacks end up
      in the next one. */
  lemma KeysLandInNextTable(elevatedValue: string, fullValue: string)
    requires '#' !in elevatedValue && '#' !in fullValue
    ensures var (ls, n) := (["[psi]"] + ["[cpu] #"], NewFor(elevatedValue, fullValue));
      Content(PatchLines(ls, n), false) != Content(ls, false)
  {
    var line := "[cpu] #";
    CpuIsTable();
    UnderPsiHeader([line], elevatedValue, fullValue);
    hide IsHeader, IsKeyLine, IsTable, IsPsiTable, NewFor, PatchLines, Content;
    assert Advance(State(true, false, false), line) == State(true, false, false);
    assert !TableAfter(line, true);
    assert [line][1..] == [];
  }

  lemma CpuIsTable()
    ensures var line := "[cpu] #";
      !IsHeader(line) && IsTable(line) && !IsPsiTable(line) && !IsKeyLine(line, ELEVATED) && !IsKeyLine(line, FULL)
  {
    var line := "[cpu] #";
    TrimNothing(line);
    CpuIsBare();
    CpuIsNotPsi();
    hide Trim, TrimEnd, Bare;
    assert line[0] == '[' && line[|line| - 1] == '#';
    assert ELEVATED[0] == 'e' && FULL[0] == 'f';
  }

  lemma CpuIsNotPsi()
    ensures var bare := "[cpu]";
      EndsWith(bare, ']') && Trim(bare[1..|bare| - 1]) !in {"psi", "'psi'", "\"psi\""}
  {
    var name := "cpu";
    assert "[cpu]"[1..4] == name;
    TrimNothing(name);
    assert name[0] == 'c';
    hide Trim;
  }

  lemma CpuIsBare()
    ensures TrimEnd(Bare("[cpu] #")) == "[cpu]"
  {
    CutAt("[cpu] ", "#");
    assert "[cpu] " + "#" == "[cpu] #";
    hide Bare;
    assert "[cpu] "[..5] == "[cpu]";
  }

  lemma {:induction false} CutAt(head: string, comment: string)
    requires '#' !in head && |comment| > 0 && comment[0] == '#'
    ensures HashAt(head + comment) == |head| && Bare(head + comment) == head
  {
    if |head| > 0 {
      CutAt(head[1..], comment);
      assert (head + comment)[1..] == head[1..] + comment;
    }
    assert (head + comment)[..|head|] == head;
  }

  // ── one psi table ────────────────────────────────────────────────────────

  /** A key before the first table that opens the psi table: inline, or dotted. */
  predicate IsPsiKey(line: string)
  {
    var t := Trim(line);
    SpellsPsi(t, "psi") || SpellsPsi(t, "'psi'") || SpellsPsi(t, "\"psi\"")
  }

  predicate SpellsPsi(t: string, name: string)
  {
    StartsWith(t, name) && (StartsWith(TrimStart(t[|name|..]), "=") || StartsWith(TrimStart(t[|name|..]), "."))
  }

  predicate OpensPsi(line: string, atRoot: bool) { IsPsiTable(line) || (atRoot && IsPsiKey(line)) }

  /** The lines that open the psi table; `atRoot` before the first table. */
  function PsiTables(ls: seq<string>, atRoot: bool): nat
  {
    if |ls| == 0 then 0
    else (if OpensPsi(ls[0], atRoot) then 1 else 0) + PsiTables(ls[1..], atRoot && !IsTable(ls[0]))
  }

  function RootAfterAll(ls: seq<string>, atRoot: bool): bool
  {
    if |ls| == 0 then atRoot else RootAfterAll(ls[1..], atRoot && !IsTable(ls[0]))
  }

  lemma {:induction false} TablesAppend(a: seq<string>, b: seq<string>, atRoot: bool)
    ensures PsiTables(a + b, atRoot) == PsiTables(a, atRoot) + PsiTables(b, RootAfterAll(a, atRoot))
    ensures RootAfterAll(a + b, atRoot) == RootAfterAll(b, RootAfterAll(a, atRoot))
  {
    hide OpensPsi, IsTable;
    if |a| == 0 {
      assert a + b == b;
    } else {
      assert (a + b)[0] == a[0] && (a + b)[1..] == a[1..] + b;
      TablesAppend(a[1..], b, atRoot && !IsTable(a[0]));
    }
  }

  lemma TablesOne(line: string, atRoot: bool)
    ensures PsiTables([line], atRoot) == if OpensPsi(line, atRoot) then 1 else 0
    ensures RootAfterAll([line], atRoot) == (atRoot && !IsTable(line))
    ensures PsiTables([], atRoot) == 0 && RootAfterAll([], atRoot) == atRoot
  {
    assert [line][1..] == [];
    hide OpensPsi, IsTable;
  }

  /** New lines open nothing inside a table. */
  lemma NewOpenNothing(n: NewLines, st: State)
    requires Recognised(n)
    ensures PsiTables([n.elevated], false) == PsiTables([n.full], false) == PsiTables(Missing(st, n), false) == 0
    ensures RootAfterAll(Missing(st, n), false) == false
  {
    KeyLineIsNoTable(n.elevated);
    KeyLineIsNoTable(n.full);
    TablesOne(n.elevated, false);
    TablesOne(n.full, false);
    TablesAppend([n.elevated], [n.full], false);
    hide IsTable, IsPsiTable, PsiTables, RootAfterAll, Recognised;
  }

  lemma LineKeepsTables(line: string, st: State, atRoot: bool, n: NewLines)
    requires Recognised(n) && (st.inPsi ==> !atRoot)
    ensures PsiTables(Emit(st, line, n), atRoot) == if OpensPsi(line, atRoot) then 1 else 0
    ensures RootAfterAll(Emit(st, line, n), atRoot) == (atRoot && !IsTable(line))
    ensures Advance(st, line).inPsi ==> !(atRoot && !IsTable(line))
  {
    TablesOne(line, atRoot);
    if IsHeader(line) {
      assert IsTable(line);
      hide *;
      HeaderKeepsTables(line, st, atRoot, n);
    } else if st.inPsi && IsRewritten(line) {
      KeyLineIsNoTable(line);
      NewOpenNothing(n, st);
      TablesOne(n.elevated, false);
      TablesOne(n.full, false);
      hide IsTable, IsPsiTable, PsiTables, RootAfterAll, Recognised, IsHeader, IsKeyLine;
    } else {
      hide IsTable, OpensPsi, PsiTables, RootAfterAll, Recognised, IsHeader, IsKeyLine;
    }
  }

  lemma HeaderKeepsTables(line: string, st: State, atRoot: bool, n: NewLines)
    requires Recognised(n) && (st.inPsi ==> !atRoot) && IsHeader(line)
    ensures PsiTables(Emit(st, line, n), atRoot) == PsiTables([line], atRoot)
    ensures RootAfterAll(Emit(st, line, n), atRoot) == RootAfterAll([line], atRoot)
    ensures Advance(st, line).inPsi ==> !(atRoot && !IsTable(line))
  {
    var m := Missing(st, n);
    assert IsTable(line);
    hide IsTable, IsHeader, IsPsiHeader, OpensPsi, PsiTables, RootAfterAll, Recognised;
    NewOpenNothing(n, st);
    TablesAppend(m, [line], atRoot);
    TablesOne(line, atRoot);
    assert m == [] ==> m + [line] == [line];
  }

  lemma {:induction false} PassKeepsTables(ls: seq<string>, st: State, atRoot: bool, n: NewLines)
    requires Recognised(n) && (st.inPsi ==> !atRoot)
    ensures PsiTables(PatchFrom(ls, st, n), atRoot) == PsiTables(ls, atRoot)
  {
    hide Recognised, IsTable, OpensPsi, Missing, Emit, Advance, RootAfterAll;
    if |ls| == 0 {
      MissingOpensNothing(st, atRoot, n);
    } else {
      var (line, next) := (ls[0], Advance(st, ls[0]));
      LineKeepsTables(line, st, atRoot, n);
      PassKeepsTables(ls[1..], next, atRoot && !IsTable(line), n);
      TablesAppend(Emit(st, line, n), PatchFrom(ls[1..], next, n), atRoot);
    }
  }

  lemma MissingOpensNothing(st: State, atRoot: bool, n: NewLines)
    requires Recognised(n) && (st.inPsi ==> !atRoot)
    ensures PsiTables(Missing(st, n), atRoot) == 0
  {
    NewOpenNothing(n, st);
    TablesOne("", atRoot);
    hide PsiTables, Recognised, OpensPsi;
  }

  /** The result has exactly one line that opens a psi table if and only if there was
      none, or one and a header that the rewriter recognises: a header in another
      spelling or with a comment after it, and an inline or dotted psi key, get a
      second table beside them. */
  lemma OnePsiTableExactly(ls: seq<string>, n: NewLines)
    requires Recognised(n)
    ensures PsiTables(PatchLines(ls, n), true) == 1 <==> PsiTables(ls, true) == if HasPsi(ls) then 1 else 0
  {
    if HasPsi(ls) {
      PassKeepsTables(ls, START, true, n);
    } else {
      TablesAppend(ls, NewBlock(n), true);
      BlockOpensOne(n, RootAfterAll(ls, true));
    }
    hide *;
  }

  lemma BlockOpensOne(n: NewLines, atRoot: bool)
    requires Recognised(n)
    ensures PsiTables(NewBlock(n), atRoot) == 1
  {
    assert NewBlock(n) == ([""] + ["[psi]"]) + ([n.elevated] + [n.full]);
    assert Trim("") == "";
    assert !IsTable("") && !IsPsiTable("") && !IsPsiKey("");
    PsiOpensTable();
    NewOpenNothing(n, START);
    hide IsPsiTable, PsiTables, Recognised, NewBlock, RootAfterAll, IsPsiKey;
    TablesOne("", atRoot);
    TablesOne("[psi]", atRoot);
    TablesOne(n.elevated, false);
    TablesAppend([""], ["[psi]"], atRoot);
    TablesAppend([n.elevated], [n.full], false);
    TablesAppend([""] + ["[psi]"], [n.elevated] + [n.full], atRoot);
    KeyLineIsNoTable(n.elevated);
  }
}
