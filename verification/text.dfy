/** Text handling the engine relies on: joining values with a separator
    (`ToString`), `String.Split` on one character, the line structure that
    `StreamWriter.WriteLine` produces and `StreamReader.ReadLine` consumes, and
    an abstract number format standing for `int`/`double` `ToString` and `Parse`. */
module Text {

  /** The pieces joined with `sep` between consecutive pieces and no trailing
      separator; no pieces give the empty string. */
  function Join(parts: seq<string>, sep: char): string
  {
    if |parts| == 0 then ""
    else if |parts| == 1 then parts[0]
    else parts[0] + [sep] + Join(parts[1..], sep)
  }

  /** `s.Split(sep)`: the maximal runs between separators, empty runs included;
      the empty string gives one empty piece. */
  function Split(s: string, sep: char): (r: seq<string>)
    ensures |r| > 0
  {
    if |s| == 0 then [""]
    else
      var rest := Split(s[1..], sep);
      if s[0] == sep then [""] + rest
      else [[s[0]] + rest[0]] + rest[1..]
  }

  /** True when no piece contains `c`. */
  predicate Free(parts: seq<string>, c: char)
  {
    forall i :: 0 <= i < |parts| ==> c !in parts[i]
  }

  lemma {:induction false} SplitWithoutSeparator(p: string, sep: char)
    requires sep !in p
    ensures Split(p, sep) == [p]
    decreases |p|
  {
    if |p| > 0 {
      assert sep !in p[1..];
      SplitWithoutSeparator(p[1..], sep);
      assert [p[0]] + p[1..] == p;
    }
  }

  lemma {:induction false} SplitAfterPiece(p: string, t: string, sep: char)
    requires sep !in p
    ensures Split(p + [sep] + t, sep) == [p] + Split(t, sep)
    decreases |p|
  {
    var s := p + [sep] + t;
    if |p| == 0 {
      assert s[1..] == t;
    } else {
      assert s[1..] == p[1..] + [sep] + t;
      assert sep !in p[1..];
      SplitAfterPiece(p[1..], t, sep);
      assert [p[0]] + p[1..] == p;
    }
  }

  /** Splitting a join gives the pieces back, as long as there is at least one
      piece and no piece contains the separator. */
  lemma {:induction false} SplitJoin(parts: seq<string>, sep: char)
    requires |parts| > 0
    requires Free(parts, sep)
    ensures Split(Join(parts, sep), sep) == parts
    decreases |parts|
  {
    if |parts| == 1 {
      SplitWithoutSeparator(parts[0], sep);
    } else {
      assert Free(parts[1..], sep) by {
        forall i | 0 <= i < |parts[1..]| ensures sep !in parts[1..][i] {
          assert parts[1..][i] == parts[i + 1];
        }
      }
      SplitJoin(parts[1..], sep);
      SplitAfterPiece(parts[0], Join(parts[1..], sep), sep);
      assert [parts[0]] + parts[1..] == parts;
    }
  }

  /** A join of pieces that avoid a character avoids it too, provided the
      separator is not that character. */
  lemma {:induction false} JoinFree(parts: seq<string>, sep: char, c: char)
    requires Free(parts, c)
    requires sep != c
    ensures c !in Join(parts, sep)
    decreases |parts|
  {
    if |parts| > 1 {
      assert Free(parts[1..], c) by {
        forall i | 0 <= i < |parts[1..]| ensures c !in parts[1..][i] {
          assert parts[1..][i] == parts[i + 1];
        }
      }
      JoinFree(parts[1..], sep, c);
      assert c !in parts[0];
    }
  }

  /** The line terminators `StreamWriter.WriteLine` can end a line with:
      `Environment.NewLine` is "\n" on Unix and "\r\n" on Windows. */
  predicate NewLine(nl: string)
  {
    nl == "\n" || nl == "\r\n"
  }

  /** What a sequence of `WriteLine` calls writes: each line followed by the
      terminator `nl`. */
  function WriteLines(lines: seq<string>, nl: string): string
  {
    if |lines| == 0 then "" else lines[0] + nl + WriteLines(lines[1..], nl)
  }

  /** True when `c` ends a line for `StreamReader.ReadLine`. */
  predicate LineBreak(c: char)
  {
    c == '\n' || c == '\r'
  }

  /** True when a string holds no line break. */
  predicate OneLine(s: string)
  {
    forall i :: 0 <= i < |s| ==> !LineBreak(s[i])
  }

  predicate AllOneLine(lines: seq<string>)
  {
    forall i :: 0 <= i < |lines| ==> OneLine(lines[i])
  }

  lemma AllOneLineAppend(a: seq<string>, b: seq<string>)
    requires AllOneLine(a) && AllOneLine(b)
    ensures AllOneLine(a + b)
  {
  }

  /** The lines `StreamReader.ReadLine` returns before it returns null: a line
      ends at "\n", "\r" or "\r\n"; a final line needs no terminator, and a
      terminator at the very end does not start another line. */
  function ReadLines(s: string): seq<string>
    decreases |s|
  {
    if |s| == 0 then []
    else if s[0] == '\n' then [""] + ReadLines(s[1..])
    else if s[0] == '\r' then
      [""] + ReadLines(if |s| > 1 && s[1] == '\n' then s[2..] else s[1..])
    else
      var rest := ReadLines(s[1..]);
      if |rest| == 0 then [[s[0]]] else [[s[0]] + rest[0]] + rest[1..]
  }

  /** A line ended by either terminator is read as that line. */
  lemma {:induction false} ReadLineThenRest(p: string, nl: string, t: string)
    requires OneLine(p) && NewLine(nl)
    ensures ReadLines(p + nl + t) == [p] + ReadLines(t)
    decreases |p|
  {
    var s := p + nl + t;
    if |p| == 0 {
      assert s == nl + t;
      if nl == "\n" {
        assert s[1..] == t;
      } else {
        assert s[2..] == t;
      }
    } else {
      assert s[1..] == p[1..] + nl + t;
      assert !LineBreak(p[0]);
      ReadLineThenRest(p[1..], nl, t);
      assert [p[0]] + p[1..] == p;
    }
  }

  /** Reading lines written one per `WriteLine`, followed by any text, gives
      those lines first, when no line contains a line break. */
  lemma {:induction false} ReadWrittenLines(lines: seq<string>, nl: string, t: string)
    requires AllOneLine(lines) && NewLine(nl)
    ensures ReadLines(WriteLines(lines, nl) + t) == lines + ReadLines(t)
    decreases |lines|
  {
    if |lines| > 0 {
      var rest := WriteLines(lines[1..], nl) + t;
      assert WriteLines(lines, nl) + t == lines[0] + nl + rest;
      ReadLineThenRest(lines[0], nl, rest);
      ReadWrittenLines(lines[1..], nl, t);
      assert [lines[0]] + lines[1..] == lines;
    } else {
      assert WriteLines(lines, nl) + t == t;
    }
  }

  /** Reading back what `WriteLine` wrote gives the same lines, whichever
      terminator was used, when no line contains a line break. */
  lemma ReadWriteLines(lines: seq<string>, nl: string)
    requires AllOneLine(lines) && NewLine(nl)
    ensures ReadLines(WriteLines(lines, nl)) == lines
  {
    ReadWrittenLines(lines, nl, "");
    assert WriteLines(lines, nl) + "" == WriteLines(lines, nl);
    assert lines + [] == lines;
  }

  /** `WriteLine` of a string holding "\n" writes several lines at once, and
      they read back as separate lines whatever the final terminator. */
  lemma {:induction false} ReadJoinedLines(parts: seq<string>, nl: string, t: string)
    requires |parts| > 0 && AllOneLine(parts) && NewLine(nl)
    ensures ReadLines(Join(parts, '\n') + nl + t) == parts + ReadLines(t)
    decreases |parts|
  {
    if |parts| == 1 {
      ReadLineThenRest(parts[0], nl, t);
    } else {
      var rest := Join(parts[1..], '\n') + nl + t;
      assert Join(parts, '\n') + nl + t == parts[0] + "\n" + rest;
      ReadLineThenRest(parts[0], "\n", rest);
      ReadJoinedLines(parts[1..], nl, t);
      assert [parts[0]] + parts[1..] == parts;
    }
  }

  lemma {:induction false} WriteLinesAppend(a: seq<string>, b: seq<string>, nl: string)
    ensures WriteLines(a + b, nl) == WriteLines(a, nl) + WriteLines(b, nl)
    decreases |a|
  {
    if |a| > 0 {
      assert (a + b)[1..] == a[1..] + b;
      WriteLinesAppend(a[1..], b, nl);
    } else {
      assert a + b == b;
    }
  }

  /** Optional values; a failed parse is None. */
  datatype Option<+T> = None | Some(value: T)

  /** The text form of numbers: `int.ToString`/`int.Parse` and
      `double.ToString`/`double.Parse`, left abstract. */
  datatype NumberFormat = NumberFormat(
    showInt: int -> string,
    parseInt: string -> Option<int>,
    showReal: real -> string,
    parseReal: string -> Option<real>)

  /** True when a rendered number is one token on one line. */
  predicate Token(s: string)
  {
    OneLine(s) && ' ' !in s && ',' !in s
  }

  /** The promise of `int.ToString` and `int.Parse`: every integer renders as
      a single token on a single line and parses back to itself. */
  ghost predicate IntsRoundTrip(f: NumberFormat)
  {
    forall n: int :: Token(f.showInt(n)) && f.parseInt(f.showInt(n)) == Some(n)
  }

  /** True when `x` renders as a single token on a single line that parses
      back to `x`. No format can do this for every real, since there are more
      reals than strings, so it is a property of the value at hand. */
  predicate Exact(f: NumberFormat, x: real)
  {
    Token(f.showReal(x)) && f.parseReal(f.showReal(x)) == Some(x)
  }

  predicate AllExact(f: NumberFormat, xs: seq<real>)
  {
    forall i :: 0 <= i < |xs| ==> Exact(f, xs[i])
  }

  lemma IntToken(f: NumberFormat, n: int)
    requires IntsRoundTrip(f)
    ensures Token(f.showInt(n)) && f.parseInt(f.showInt(n)) == Some(n)
  {
  }

  /** A format that meets these promises: integers in tally notation, and
      reals shown exactly when they are whole numbers. */
  function Tally(n: int): string
  {
    if n >= 0 then seq(n, _ => '1') else "-" + seq(-n, _ => '1')
  }

  predicate AllOnes(s: string)
  {
    forall i :: 0 <= i < |s| ==> s[i] == '1'
  }

  function ParseTally(s: string): Option<int>
  {
    if AllOnes(s) then Some(|s|)
    else if |s| > 0 && s[0] == '-' && AllOnes(s[1..]) then Some(-(|s| - 1))
    else None
  }

  function ShowWhole(x: real): string
  {
    if x.Floor as real == x then Tally(x.Floor) else "?"
  }

  function ParseWhole(s: string): Option<real>
  {
    match ParseTally(s)
    case None => None
    case Some(n) => Some(n as real)
  }

  const TallyFormat := NumberFormat(Tally, ParseTally, ShowWhole, ParseWhole)

  /** The tally format keeps every integer and every whole real, so the
      promises the saved-model format rests on can be met. */
  lemma TallyRoundTrips(x: real)
    ensures IntsRoundTrip(TallyFormat)
    ensures x.Floor as real == x ==> Exact(TallyFormat, x)
  {
    forall n: int ensures Token(Tally(n)) && ParseTally(Tally(n)) == Some(n) {
      if n < 0 {
        assert Tally(n)[1..] == seq(-n, _ => '1');
        assert !AllOnes(Tally(n)) by { assert Tally(n)[0] == '-'; }
      }
    }
  }

  /** The tokens of a list of numbers. */
  function ShowReals(f: NumberFormat, xs: seq<real>): (r: seq<string>)
    ensures |r| == |xs|
    ensures forall i :: 0 <= i < |xs| ==> r[i] == f.showReal(xs[i])
  {
    seq(|xs|, i requires 0 <= i < |xs| => f.showReal(xs[i]))
  }

  function ShowInts(f: NumberFormat, ns: seq<int>): (r: seq<string>)
    ensures |r| == |ns|
    ensures forall i :: 0 <= i < |ns| ==> r[i] == f.showInt(ns[i])
  {
    seq(|ns|, i requires 0 <= i < |ns| => f.showInt(ns[i]))
  }
}
