/** The shell's in-place tokenizer, and echo, which puts words together again. */
module Shell {
  import opened Words

  const NUL: char := '\0'

  predicate Blank(c: char) { c == ' ' || c == '\t' || c == '\n' || c == '\r' }

  // -------------------------------------------------------- words of a text

  /** A word of t[lo..] starts at i. */
  predicate IsStart(t: seq<char>, lo: nat, i: nat) {
    lo <= i < |t| && !Blank(t[i]) && (i == lo || Blank(t[i - 1]))
  }

  /** Where the words of t[lo..] that start at i or later do so. */
  function Starts(t: seq<char>, lo: nat, i: nat): seq<nat>
    requires i <= |t|
    decreases |t| - i
  {
    if i == |t| then []
    else if IsStart(t, lo, i) then [i] + Starts(t, lo, i + 1)
    else Starts(t, lo, i + 1)
  }

  /** The first blank at i or later, or the end of the text. */
  function End(t: seq<char>, i: nat): (e: nat)
    requires i <= |t|
    ensures i <= e <= |t| && (e < |t| ==> Blank(t[e]))
    ensures forall k :: i <= k < e ==> !Blank(t[k])
    decreases |t| - i
  {
    if i == |t| || Blank(t[i]) then i else End(t, i + 1)
  }

  /** The words of t[lo..]. */
  function WordsFrom(t: seq<char>, lo: nat, i: nat): seq<seq<char>>
    requires i <= |t|
    decreases |t| - i
  {
    if i == |t| then []
    else if IsStart(t, lo, i) then [t[i..End(t, i)]] + WordsFrom(t, lo, i + 1)
    else WordsFrom(t, lo, i + 1)
  }

  /** What may stand between words: space, tab, newline and carriage return. */
  const GAPS: seq<char> := " \t\n\r"

  lemma BlankIsGap(c: char)
    ensures Blank(c) <==> c in GAPS
  {
    assert GAPS[0] == ' ' && GAPS[1] == '\t' && GAPS[2] == '\n' && GAPS[3] == '\r';
  }

  /** t[i..j] is a maximal run of t[lo..] without gaps. */
  predicate IsRun(t: seq<char>, lo: nat, i: nat, j: nat) {
    && lo <= i < j <= |t| && (i == lo || t[i - 1] in GAPS) && (j == |t| || t[j] in GAPS)
    && forall k :: i <= k < j ==> t[k] !in GAPS
  }

  /** Starts lists the starts of all the maximal runs, in order, each once. */
  lemma {:induction false} StartsAreAll(t: seq<char>, lo: nat, i: nat)
    requires i <= |t|
    ensures forall k :: 0 <= k < |Starts(t, lo, i)| ==> i <= Starts(t, lo, i)[k] && IsStart(t, lo, Starts(t, lo, i)[k])
    ensures forall k, l :: 0 <= k < l < |Starts(t, lo, i)| ==> Starts(t, lo, i)[k] < Starts(t, lo, i)[l]
    ensures forall j :: i <= j && IsStart(t, lo, j) ==> j in Starts(t, lo, i)
    decreases |t| - i
  {
    if i < |t| {
      StartsAreAll(t, lo, i + 1);
    }
  }

  /** A pair of ends is a maximal run exactly when it is a start of the list with its End. */
  lemma RunsAreStarts(t: seq<char>, lo: nat, i: nat, j: nat)
    requires lo <= |t|
    ensures IsRun(t, lo, i, j) <==> i < |t| && i in Starts(t, lo, lo) && j == End(t, i)
  {
    StartsAreAll(t, lo, lo);
    forall c: char ensures Blank(c) <==> c in GAPS { BlankIsGap(c); }
    hide Blank;
    if i in Starts(t, lo, lo) {
      var k :| 0 <= k < |Starts(t, lo, lo)| && Starts(t, lo, lo)[k] == i;
      assert IsStart(t, lo, i);
    }
    if IsRun(t, lo, i, j) {
      RunEnds(t, i, j);
    }
  }

  lemma {:induction false} WordsAreRuns(t: seq<char>, lo: nat, i: nat)
    requires i <= |t|
    ensures |WordsFrom(t, lo, i)| == |Starts(t, lo, i)|
    ensures forall k :: 0 <= k < |Starts(t, lo, i)| ==>
              Starts(t, lo, i)[k] < |t| && WordsFrom(t, lo, i)[k] == t[Starts(t, lo, i)[k]..End(t, Starts(t, lo, i)[k])]
    decreases |t| - i
  {
    if i < |t| {
      WordsAreRuns(t, lo, i + 1);
    }
  }

  // ------------------------------------------------------------- C strings

  /** The C string at i. */
  function CString(s: seq<char>, i: nat): seq<char>
    decreases |s| - i
  {
    if i >= |s| || s[i] == NUL then [] else [s[i]] + CString(s, i + 1)
  }

  lemma {:induction false} CStringIs(s: seq<char>, i: nat, e: nat)
    requires i <= e < |s| && s[e] == NUL && forall k :: i <= k < e ==> s[k] != NUL
    ensures CString(s, i) == s[i..e]
    decreases e - i
  {
    if i < e {
      CStringIs(s, i + 1, e);
      assert s[i..e] == [s[i]] + s[i + 1..e];
    }
  }

  // -------------------------------------------------------------- the loops

  lemma NoneLeft(t: seq<char>, lo: nat)
    ensures Starts(t, lo, |t|) == []
  {
  }

  lemma {:induction false} NoStart(t: seq<char>, lo: nat, i: nat, j: nat)
    requires lo <= i <= j <= |t| && forall k :: i <= k < j ==> !IsStart(t, lo, k)
    ensures Starts(t, lo, i) == Starts(t, lo, j)
    decreases j - i
  {
    if i < j {
      NoStart(t, lo, i + 1, j);
    }
  }

  /** One word, from its start to the blank or the end of the text behind it. */
  lemma WordEnds(t: seq<char>, lo: nat, s: nat, e: nat)
    requires IsStart(t, lo, s) && s < e <= |t| && (e == |t| || Blank(t[e])) && forall k :: s <= k < e ==> !Blank(t[k])
    ensures End(t, s) == e
    ensures Starts(t, lo, s) == [s] + Starts(t, lo, e)
    ensures e < |t| ==> Starts(t, lo, e) == Starts(t, lo, e + 1)
  {
    RunEnds(t, s, e);
    NoStart(t, lo, s + 1, e);
  }

  lemma {:induction false} RunEnds(t: seq<char>, s: nat, e: nat)
    requires s <= e <= |t| && (e == |t| || Blank(t[e])) && forall k :: s <= k < e ==> !Blank(t[k])
    ensures End(t, s) == e
    decreases e - s
  {
    if s < e {
      RunEnds(t, s + 1, e);
    }
  }

  /** The word that starts at s stands in a as a C string. */
  ghost predicate Stands(t: seq<char>, a: seq<char>, s: nat)
    requires s <= |t|
  {
    var e := End(t, s);
    e < |a| && a[e] == NUL && forall k :: s <= k < e ==> a[k] == t[k]
  }

  /** The loop has come to c: argc words of t[lo..] stand in a and are in argv, and the others start at
      c or later. */
  ghost predicate Cut(t: seq<char>, lo: nat, a: seq<char>, argv: seq<Option<nat>>, argc: nat, c: nat) {
    && lo <= c <= |t| < |a| && argc < |argv| && (c == lo || c == |t| || Blank(t[c - 1]))
    && argc <= |Starts(t, lo, lo)| && Starts(t, lo, lo)[argc..] == Starts(t, lo, c)
    && (forall k :: 0 <= k < argc ==> Starts(t, lo, lo)[k] < |t| && argv[k] == Some(Starts(t, lo, lo)[k]))
    && (forall k :: 0 <= k < argc ==> End(t, Starts(t, lo, lo)[k]) <= c && Stands(t, a, Starts(t, lo, lo)[k]))
    && (forall k :: c <= k < |t| ==> a[k] == t[k]) && a[|t|] == NUL
  }

  lemma CutSkip(t: seq<char>, lo: nat, a: seq<char>, argv: seq<Option<nat>>, argc: nat, c0: nat, c: nat)
    requires Cut(t, lo, a, argv, argc, c0) && c0 <= c <= |t| && forall k :: c0 <= k < c ==> Blank(t[k])
    ensures Cut(t, lo, a, argv, argc, c)
  {
    NoStart(t, lo, c0, c);
  }

  /** One more word, ended by a NUL in place of the blank behind it. */
  lemma CutWord(t: seq<char>, lo: nat, a: seq<char>, argv: seq<Option<nat>>, argc: nat, s: nat, e: nat)
    requires Cut(t, lo, a, argv, argc, s) && s < e <= |t| && argc + 1 < |argv|
    requires (e == |t| || Blank(t[e])) && forall k :: s <= k < e ==> !Blank(t[k])
    ensures Cut(t, lo, a[e := NUL], argv[argc := Some(s)], argc + 1, if e < |t| then e + 1 else e)
  {
    hide Starts;
    WordEnds(t, lo, s, e);
    var starts := Starts(t, lo, lo);
    assert starts[argc] == starts[argc..][0] == s;
    assert starts[argc + 1..] == starts[argc..][1..];
    var a' := a[e := NUL];
    forall k | 0 <= k < argc + 1
      ensures Stands(t, a', starts[k])
    {
    }
  }

  /** parsecmd on the C string at cmd, of z - cmd characters. argv holds positions in a, None for the
      null pointer. */
  method ParseCmd(a: array<char>, cmd: nat, argv: array<Option<nat>>, maxarg: nat, ghost z: nat) returns (argc: nat)
    requires cmd <= z < a.Length && a[z] == NUL && forall k :: cmd <= k < z ==> a[k] != NUL
    requires 1 <= maxarg <= argv.Length
    modifies a, argv
    ensures var t := old(a[..z]);
            var starts := Starts(t, cmd, cmd);
            && |WordsFrom(t, cmd, cmd)| == |starts|
            && argc == (if |starts| < maxarg - 1 then |starts| else maxarg - 1)
            && argv[argc] == None
            && (forall k :: 0 <= k < argc ==> argv[k] == Some(starts[k]))
            && (forall k :: 0 <= k < argc ==> CString(a[..], starts[k]) == WordsFrom(t, cmd, cmd)[k])
    ensures forall k :: 0 <= k < a.Length ==> a[k] == old(a[k]) || (cmd <= k < z && old(a[k]) in GAPS && a[k] == NUL)
    ensures forall k :: argc < k < argv.Length ==> argv[k] == old(argv[k])
  {
    hide Cut, Starts, CString, WordsFrom;
    ghost var t := a[..z];
    argc := 0;
    var c := cmd;
    CutStart(t, cmd, a[..], argv[..]);
    while a[c] != NUL
      invariant cmd <= c <= z && argc <= maxarg - 1 && Cut(t, cmd, a[..], argv[..], argc, c)
      invariant forall k :: argc <= k < argv.Length ==> argv[k] == old(argv[k])
      invariant forall k :: c <= k < a.Length ==> a[k] == old(a[k])
      invariant forall k :: 0 <= k < c ==> a[k] == old(a[k]) || (cmd <= k && Blank(old(a[k])) && a[k] == NUL)
      decreases z - c
    {
      ghost var from := c;
      while Blank(a[c])
        invariant from <= c <= z && forall k :: from <= k < c ==> Blank(t[k])
        decreases z - c
      {
        c := c + 1;
      }
      CutSkip(t, cmd, a[..], argv[..], argc, from, c);
      if a[c] == NUL || argc >= maxarg - 1 {
        break;
      }
      ghost var a0, argv0, s := a[..], argv[..], c;
      argv[argc] := Some(c);
      argc := argc + 1;
      while a[c] != NUL && !Blank(a[c])
        invariant s <= c <= z && forall k :: s <= k < c ==> !Blank(t[k])
        decreases z - c
      {
        c := c + 1;
      }
      CutWord(t, cmd, a0, argv0, argc - 1, s, c);
      assert argv[..] == argv0[argc - 1 := Some(s)];
      ghost var e := c;
      if a[c] != NUL {
        a[c] := NUL;
        c := c + 1;
      }
      assert a[..] == a0[e := NUL];
    }
    CutAll(t, cmd, a[..], argv[..], argc, c);
    argv[argc] := None;
    forall b: char ensures Blank(b) <==> b in GAPS { BlankIsGap(b); }
  }

  lemma CutStart(t: seq<char>, lo: nat, a: seq<char>, argv: seq<Option<nat>>)
    requires lo <= |t| < |a| && argv != [] && a[|t|] == NUL && forall k :: lo <= k < |t| ==> a[k] == t[k]
    ensures Cut(t, lo, a, argv, 0, lo)
  {
  }

  /** What stands in a when the loop ends, at the end of the text or with argv full. */
  lemma CutAll(t: seq<char>, lo: nat, a: seq<char>, argv: seq<Option<nat>>, argc: nat, c: nat)
    requires Cut(t, lo, a, argv, argc, c) && forall k :: lo <= k < |t| ==> t[k] != NUL
    ensures argc <= |Starts(t, lo, lo)| && |WordsFrom(t, lo, lo)| == |Starts(t, lo, lo)|
    ensures c == |t| ==> argc == |Starts(t, lo, lo)|
    ensures forall k :: 0 <= k < argc ==> argv[k] == Some(Starts(t, lo, lo)[k])
    ensures forall k :: 0 <= k < argc ==> CString(a, Starts(t, lo, lo)[k]) == WordsFrom(t, lo, lo)[k]
  {
    NoneLeft(t, lo);
    TokensRead(t, lo, a, argc);
  }

  lemma TokensRead(t: seq<char>, lo: nat, a: seq<char>, argc: nat)
    requires lo <= |t| < |a| && NUL !in t[lo..] && argc <= |Starts(t, lo, lo)|
    requires forall k :: 0 <= k < argc ==> Starts(t, lo, lo)[k] < |t| && Stands(t, a, Starts(t, lo, lo)[k])
    ensures |WordsFrom(t, lo, lo)| == |Starts(t, lo, lo)|
    ensures forall k :: 0 <= k < argc ==> CString(a, Starts(t, lo, lo)[k]) == WordsFrom(t, lo, lo)[k]
  {
    WordsAreRuns(t, lo, lo);
    StartsAreAll(t, lo, lo);
    forall k | 0 <= k < argc
      ensures CString(a, Starts(t, lo, lo)[k]) == WordsFrom(t, lo, lo)[k]
    {
      TokenReads(t, lo, a, Starts(t, lo, lo)[k]);
    }
  }

  lemma TokenReads(t: seq<char>, lo: nat, a: seq<char>, s: nat)
    requires lo <= s < |t| < |a| && NUL !in t[lo..] && Stands(t, a, s)
    ensures CString(a, s) == t[s..End(t, s)]
  {
    forall k | s <= k < End(t, s)
      ensures a[k] != NUL
    {
      assert t[k] == t[lo..][k - lo];
    }
    CStringIs(a, s, End(t, s));
  }

  // ------------------------------------------------------------------ echo

  /** The words with one space between them. */
  function Join(ws: seq<seq<char>>): seq<char> {
    if ws == [] then [] else if |ws| == 1 then ws[0] else ws[0] + " " + Join(ws[1..])
  }

  /** echo: what its calls of write put out. */
  method Echo(argv: seq<seq<char>>) returns (out: seq<char>)
    ensures out == Join(if argv == [] then [] else argv[1..]) + "\n"
  {
    ghost var ws := if argv == [] then [] else argv[1..];
    var i, argc := 1, |argv|;
    out := [];
    while i < argc
      invariant 1 <= i && (i <= argc || argc == 0)
      invariant argc == 0 || out + Join(argv[i..]) == Join(ws)
      invariant argc == 0 ==> out == []
    {
      assert argv[i..][1..] == argv[i + 1..];
      out := out + argv[i];
      if i + 1 < argc {
        out := out + " ";
      }
      i := i + 1;
    }
    out := out + "\n";
  }

  predicate IsWord(w: seq<char>) {
    w != [] && forall k :: 0 <= k < |w| ==> !Blank(w[k]) && w[k] != NUL
  }

  lemma {:induction false} NoWord(t: seq<char>, lo: nat, i: nat, j: nat)
    requires lo <= i <= j <= |t| && forall k :: i <= k < j ==> !IsStart(t, lo, k)
    ensures WordsFrom(t, lo, i) == WordsFrom(t, lo, j)
    decreases j - i
  {
    if i < j {
      NoWord(t, lo, i + 1, j);
    }
  }

  lemma AllBlank(t: seq<char>, lo: nat, i: nat, tail: seq<char>)
    requires lo <= i <= |t| && t[i..] == tail && forall k :: 0 <= k < |tail| ==> Blank(tail[k])
    ensures WordsFrom(t, lo, i) == []
  {
    forall k | i <= k < |t|
      ensures !IsStart(t, lo, k)
    {
      assert t[k] == t[i..][k - i];
    }
    NoWord(t, lo, i, |t|);
  }

  /** Tokenizing what echo joined, wherever it stands and with any blanks behind it, gives the words
      back. */
  lemma {:induction false} JoinParses(t: seq<char>, lo: nat, i: nat, ws: seq<seq<char>>, tail: seq<char>)
    requires lo <= i <= |t| && t[i..] == Join(ws) + tail && (i == lo || Blank(t[i - 1]))
    requires (forall w :: w in ws ==> IsWord(w)) && forall k :: 0 <= k < |tail| ==> Blank(tail[k])
    ensures WordsFrom(t, lo, i) == ws
    decreases |ws|
  {
    if ws == [] {
      AllBlank(t, lo, i, tail);
    } else {
      var w := ws[0];
      assert IsWord(w);
      var e := i + |w|;
      if |ws| == 1 {
        FirstWord(t, lo, i, w, tail);
        AllBlank(t, lo, e, tail);
      } else {
        var rest := Join(ws[1..]) + tail;
        JoinSplit(ws, tail);
        FirstWord(t, lo, i, w, " " + rest);
        hide Join, WordsFrom;
        AfterBlank(t, e, rest);
        NoWord(t, lo, e, e + 1);
        JoinParses(t, lo, e + 1, ws[1..], tail);
      }
    }
  }

  lemma JoinSplit(ws: seq<seq<char>>, tail: seq<char>)
    requires |ws| > 1
    ensures Join(ws) + tail == ws[0] + (" " + (Join(ws[1..]) + tail))
  {
  }

  lemma AfterBlank(t: seq<char>, e: nat, rest: seq<char>)
    requires e <= |t| && t[e..] == " " + rest
    ensures e < |t| && t[e] == ' ' && t[e + 1..] == rest
  {
    assert |t[e..]| == 1 + |rest|;
    assert t[e] == t[e..][0];
    assert t[e + 1..] == t[e..][1..];
  }

  lemma FirstWord(t: seq<char>, lo: nat, i: nat, w: seq<char>, rest: seq<char>)
    requires lo <= i <= |t| && t[i..] == w + rest && (i == lo || Blank(t[i - 1]))
    requires IsWord(w) && (rest == [] || Blank(rest[0]))
    ensures i + |w| <= |t| && t[i + |w|..] == rest
    ensures WordsFrom(t, lo, i) == [w] + WordsFrom(t, lo, i + |w|)
  {
    assert |t[i..]| == |w| + |rest|;
    var e := i + |w|;
    assert t[i..e] == t[i..][..|w|];
    assert t[e..] == t[i..][|w|..];
    forall k | i <= k < e
      ensures t[k] == w[k - i]
    {
      assert t[k] == t[i..][k - i];
    }
    if e < |t| { assert t[e] == t[e..][0]; }
    RunEnds(t, i, e);
    NoWord(t, lo, i + 1, e);
  }

  /** echo's output, given to the shell, is the words again. */
  lemma EchoParses(ws: seq<seq<char>>)
    requires forall w :: w in ws ==> IsWord(w)
    ensures WordsFrom(Join(ws) + "\n", 0, 0) == ws && |Starts(Join(ws) + "\n", 0, 0)| == |ws|
    ensures WordsFrom(Join(ws), 0, 0) == ws
    ensures NUL !in Join(ws) + "\n"
  {
    JoinParses(Join(ws) + "\n", 0, 0, ws, "\n");
    JoinParses(Join(ws), 0, 0, ws, "");
    WordsAreRuns(Join(ws) + "\n", 0, 0);
    JoinPlain(ws);
  }

  lemma {:induction false} JoinPlain(ws: seq<seq<char>>)
    requires forall w :: w in ws ==> IsWord(w)
    ensures NUL !in Join(ws)
    decreases |ws|
  {
    if ws != [] {
      assert IsWord(ws[0]);
      JoinPlain(ws[1..]);
    }
  }
}
