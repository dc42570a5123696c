/** The line assembler of TetraLogic::onCharactersReceived, as functions on
    the buffered text: which complete lines a buffer yields and what stays
    buffered. The loop itself lives in TetraLogic.OnCharactersReceived. */
module Lines {
  import opened Basics
  import opened CStrings

  const CrLf: string := "\r\n"

  /** The buffer holds no complete line. */
  predicate NoCrLf(s: string)
  {
    !Contains(s, CrLf)
  }

  /** `peistream += buf` with a C string: the characters before the first NUL. */
  function CString(buf: string): (r: string)
    ensures r <= buf && '\0' !in r
    ensures |r| < |buf| ==> buf[|r|] == '\0'
  {
    if buf == [] || buf[0] == '\0' then [] else [buf[0]] + CString(buf[1..])
  }

  /** What a buffer yields: the non-empty lines in order, and the tail. */
  datatype Assembly = Assembly(lines: seq<string>, rest: string)

  /** Repeatedly cut the buffer at its first "\r\n"; a segment that is empty
      is dropped, every other one is a line. */
  function Assemble(s: string): Assembly
    decreases |s|
  {
    match Find(s, CrLf)
    case None => Assembly([], s)
    case Some(f) =>
      var tail := Assemble(s[f + 2..]);
      if f == 0 then tail
      else Assembly([s[..f]] + tail.lines, tail.rest)
  }

  /** What stays buffered is the end of the buffer and holds no complete
      line; every line handed on is non-empty and holds no "\r\n". */
  lemma AssembleClean(s: string)
    ensures NoCrLf(Assemble(s).rest)
    ensures |Assemble(s).rest| <= |s|
    ensures Assemble(s).rest == s[|s| - |Assemble(s).rest|..]
    ensures forall i :: 0 <= i < |Assemble(s).lines| ==>
      Assemble(s).lines[i] != [] && NoCrLf(Assemble(s).lines[i])
  {
    AssembleRest(s);
    AssembleLines(s);
  }

  lemma AssembleRest(s: string)
    ensures NoCrLf(Assemble(s).rest)
    ensures |Assemble(s).rest| <= |s|
    ensures Assemble(s).rest == s[|s| - |Assemble(s).rest|..]
  {
    AssembleRestClean(s);
    AssembleRestSuffix(s);
  }

  lemma {:induction false} AssembleRestClean(s: string)
    ensures NoCrLf(Assemble(s).rest)
    decreases |s|
  {
    match Find(s, CrLf)
    case None =>
    case Some(f) =>
      AssembleRestClean(s[f + 2..]);
  }

  lemma {:induction false} AssembleRestSuffix(s: string)
    ensures |Assemble(s).rest| <= |s|
    ensures Assemble(s).rest == s[|s| - |Assemble(s).rest|..]
    decreases |s|
  {
    match Find(s, CrLf)
    case None =>
    case Some(f) =>
      var t := s[f + 2..];
      AssembleRestSuffix(t);
      SuffixOfSuffix(s, t, Assemble(t).rest);
  }

  /** A suffix of a suffix is a suffix. */
  lemma SuffixOfSuffix(s: string, t: string, r: string)
    requires |t| <= |s| && t == s[|s| - |t|..]
    requires |r| <= |t| && r == t[|t| - |r|..]
    ensures r == s[|s| - |r|..]
  {
  }

  lemma {:induction false} AssembleLines(s: string)
    ensures forall i :: 0 <= i < |Assemble(s).lines| ==>
      Assemble(s).lines[i] != [] && NoCrLf(Assemble(s).lines[i])
    decreases |s|
  {
    match Find(s, CrLf)
    case None =>
    case Some(f) =>
      AssembleLines(s[f + 2..]);
      if f > 0 {
        NoCrLfBefore(s, f);
      }
  }

  /** The text before the first "\r\n" holds none. */
  lemma NoCrLfBefore(s: string, f: nat)
    requires Find(s, CrLf) == Some(f)
    ensures NoCrLf(s[..f])
  {
    forall j: nat ensures !OccursAt(s[..f], CrLf, j) {
      if j + 2 <= f {
        assert !OccursAt(s, CrLf, j);
        assert s[..f][j..j + 2] == s[j..j + 2];
      }
    }
  }

  /** Splitting a buffer after some of its text arrived, and again after the
      rest arrived, gives the same lines and the same tail as splitting it
      once. */
  lemma {:induction false} AssembleAppend(a: string, b: string)
    ensures Assemble(a + b) ==
      Assembly(Assemble(a).lines + Assemble(Assemble(a).rest + b).lines,
               Assemble(Assemble(a).rest + b).rest)
    decreases |a|
  {
    match Find(a, CrLf)
    case None =>
      assert Assemble(a) == Assembly([], a);
      assert [] + Assemble(a + b).lines == Assemble(a + b).lines;
    case Some(f) =>
      AssembleAppend(a[f + 2..], b);
      AssembleAppendSome(a, b, f);
  }

  /** The inductive step of AssembleAppend: from the claim for the text after
      the first cut to the claim for the whole of `a`. */
  lemma AssembleAppendSome(a: string, b: string, f: nat)
    requires Find(a, CrLf) == Some(f)
    requires Assemble(a[f + 2..] + b) ==
      Assembly(Assemble(a[f + 2..]).lines + Assemble(Assemble(a[f + 2..]).rest + b).lines,
               Assemble(Assemble(a[f + 2..]).rest + b).rest)
    ensures Assemble(a + b) ==
      Assembly(Assemble(a).lines + Assemble(Assemble(a).rest + b).lines,
               Assemble(Assemble(a).rest + b).rest)
  {
    var t := a[f + 2..];
    var head := if f == 0 then [] else [a[..f]];
    AssembleStep(a, f);
    AssembleAppendCut(a, b, f);
    Regroup(Assemble(a), Assemble(a + b), Assemble(t), Assemble(t + b),
            Assemble(Assemble(t).rest + b), head);
  }

  /** The bookkeeping of AssembleAppendSome, on values. */
  lemma Regroup(A: Assembly, AB: Assembly, T: Assembly, TB: Assembly, X: Assembly,
                head: seq<string>)
    requires A == Assembly(head + T.lines, T.rest)
    requires AB == Assembly(head + TB.lines, TB.rest)
    requires TB == Assembly(T.lines + X.lines, X.rest)
    ensures A.rest == T.rest
    ensures AB == Assembly(A.lines + X.lines, X.rest)
  {
    ConcatAssoc(head, T.lines, X.lines);
  }

  /** The first cut of `a + b` falls where the first cut of `a` does. */
  lemma AssembleAppendCut(a: string, b: string, f: nat)
    requires Find(a, CrLf) == Some(f)
    ensures Assemble(a + b) == Assembly((if f == 0 then [] else [a[..f]]) + Assemble(a[f + 2..] + b).lines,
                                        Assemble(a[f + 2..] + b).rest)
  {
    var s := a + b;
    FindInPrefix(a, b, CrLf);
    AssembleStep(s, f);
    assert s[f + 2..] == a[f + 2..] + b;
    assert s[..f] == a[..f];
  }

  /** The whole text of a sequence of chunks. */
  function Concat(chunks: seq<string>): string
  {
    if chunks == [] then [] else chunks[0] + Concat(chunks[1..])
  }

  /** The lines handed on, chunk by chunk, when each chunk is appended to the
      buffer and the buffer is split at once. */
  function Feed(buffer: string, chunks: seq<string>): Assembly
    decreases |chunks|
  {
    if chunks == [] then Assembly([], buffer)
    else
      var a := Assemble(buffer + chunks[0]);
      var r := Feed(a.rest, chunks[1..]);
      Assembly(a.lines + r.lines, r.rest)
  }

  /** The lines do not depend on how the bytes were cut into chunks: feeding
      the chunks one by one yields what the concatenation yields at once. */
  lemma {:induction false} ChunkingIrrelevant(buffer: string, chunks: seq<string>)
    requires NoCrLf(buffer)
    ensures Feed(buffer, chunks) == Assemble(buffer + Concat(chunks))
    decreases |chunks|
  {
    if chunks == [] {
      assert buffer + Concat(chunks) == buffer;
      AssembleDone(buffer);
    } else {
      var s := buffer + chunks[0];
      var c := Concat(chunks[1..]);
      var a := Assemble(s);
      var later := Feed(a.rest, chunks[1..]);
      assert Feed(buffer, chunks) == Assembly(a.lines + later.lines, later.rest);
      assert later == Assemble(a.rest + c) by {
        AssembleClean(s);
        ChunkingIrrelevant(a.rest, chunks[1..]);
      }
      assert Assemble(s + c) == Assembly(a.lines + later.lines, later.rest) by {
        AssembleAppend(s, c);
      }
      assert buffer + Concat(chunks) == s + c by {
        assert Concat(chunks) == chunks[0] + c;
        ConcatAssoc(buffer, chunks[0], c);
      }
    }
  }

  /** One turn of the loop: when the buffer holds a "\r\n" at `f`, the lines
      still to come are the segment before it (unless empty) followed by the
      lines of what comes after it. */
  lemma AssembleStep(s: string, f: nat)
    requires Find(s, CrLf) == Some(f)
    ensures Assemble(s) == Assembly((if f == 0 then [] else [s[..f]]) + Assemble(s[f + 2..]).lines,
                                    Assemble(s[f + 2..]).rest)
  {
  }

  /** A buffer without "\r\n" yields nothing and is kept whole. */
  lemma AssembleDone(s: string)
    requires NoCrLf(s)
    ensures Assemble(s) == Assembly([], s)
  {
  }
}
