// src/mesh/face_vertex/construct.rs: the built-in cube, and the per-line logic
// of the OBJ loader.  Reading the file is left out; the loader here takes the
// file's lines.  Parsing a float is a parameter, parsing an index is modelled.

module FaceVertexConstruct {
  import N = Numeric
  import Pt = Point
  import opened FaceVertex

  // ------------------------------------------------------------- Mesh::default

  function CubeVertices(): seq<Pt.Point>
  {
    [Pt.Point([-50.0, -50.0, 50.0]), Pt.Point([50.0, -50.0, 50.0]),
     Pt.Point([-50.0, -50.0, -50.0]), Pt.Point([50.0, -50.0, -50.0]),
     Pt.Point([-50.0, 50.0, 50.0]), Pt.Point([50.0, 50.0, 50.0]),
     Pt.Point([-50.0, 50.0, -50.0]), Pt.Point([50.0, 50.0, -50.0])]
  }

  function CubeTriangles(): seq<VIndex>
  {
    [VIndex(2, 6, 7), VIndex(2, 7, 3), VIndex(3, 7, 5), VIndex(3, 5, 1),
     VIndex(1, 5, 4), VIndex(1, 4, 0), VIndex(0, 4, 6), VIndex(0, 6, 2),
     VIndex(6, 4, 5), VIndex(6, 5, 7), VIndex(0, 2, 3), VIndex(0, 3, 1)]
  }

  /** `Mesh::default`: a cube of edge 100 centred on the origin: 8 corners with every
      coordinate ±50, and 12 triangles over those corners. */
  function DefaultMesh(): (m: Mesh)
    ensures |m.vertex| == 8 && Dimension(m.vertex, 3)
    ensures forall k, a :: 0 <= k < 8 && 0 <= a < 3 ==> m.vertex[k].c[a] == 50.0 || m.vertex[k].c[a] == -50.0
    ensures |m.vindex| == 12 && IndicesValid(m.vertex, m.vindex)
  {
    Mesh(CubeVertices(), CubeTriangles())
  }

  /** The 8 corners are distinct. */
  lemma CubeCornersDistinct()
    ensures forall i, j :: 0 <= i < j < 8 ==> DefaultMesh().vertex[i] != DefaultMesh().vertex[j]
  {
    var v := CubeVertices();
    forall i, j | 0 <= i < j < 8 ensures v[i] != v[j] {
      assert v[i].c != v[j].c by {
        assert v[i].c[0] != v[j].c[0] || v[i].c[1] != v[j].c[1] || v[i].c[2] != v[j].c[2];
      }
    }
  }

  /** The axis on which each cube triangle's corners agree. */
  function FaceAxes(): seq<nat>
  {
    [2, 2, 0, 0, 2, 2, 0, 0, 1, 1, 1, 1]
  }

  predicate SharesAxis(a: Pt.Point, b: Pt.Point, c: Pt.Point, ax: nat)
  {
    ax < |a.c| && ax < |b.c| && ax < |c.c| && a.c[ax] == b.c[ax] == c.c[ax]
  }

  /** Every triangle has three distinct corners lying on one face of the cube: they agree
      on the coordinate `FaceAxes()[k]`. */
  lemma CubeTrianglesOnFaces(k: nat)
    requires k < 12
    ensures var t := DefaultMesh().vindex[k];
      t.i0 != t.i1 && t.i1 != t.i2 && t.i0 != t.i2
    ensures var t := DefaultMesh().vindex[k];
      var v := DefaultMesh().vertex;
      SharesAxis(v[t.i0], v[t.i1], v[t.i2], FaceAxes()[k])
  {
  }

  /** Iterating the default cube's pipeline mesh yields all 12 triangles, in order. */
  lemma CubeIteratesAll()
    ensures |Items(Start(StartPipeline(DefaultMesh())))| == 12
  {
    ItemsAll(Start(StartPipeline(DefaultMesh())));
  }

  // ------------------------------------------------- whitespace and tokens

  /** White space as `trim` and `split_whitespace` see it: the code points with the
      Unicode White_Space property (tab to carriage return, space, next line, no-break
      space, ogham space mark, the spaces U+2000 to U+200A, line and paragraph
      separators, narrow no-break space, medium mathematical space, ideographic space). */
  predicate IsWhitespace(ch: char)
  {
    ('\t' <= ch <= '\r') || ch == ' ' || ch == '\U{0085}' || ch == '\U{00A0}' || ch == '\U{1680}'
    || ('\U{2000}' <= ch <= '\U{200A}') || ch == '\U{2028}' || ch == '\U{2029}' || ch == '\U{202F}'
    || ch == '\U{205F}' || ch == '\U{3000}'
  }

  /** Length of the word at the front of `s`. */
  function WordLength(s: string): (n: nat)
    requires |s| > 0 && !IsWhitespace(s[0])
    ensures 1 <= n <= |s|
    ensures forall i :: 0 <= i < n ==> !IsWhitespace(s[i])
    ensures n == |s| || IsWhitespace(s[n])
  {
    if |s| == 1 || IsWhitespace(s[1]) then 1 else 1 + WordLength(s[1..])
  }

  /** `trim().split_whitespace()`: the maximal runs of non-white characters, in order
      (trimming first does not change them). */
  function SplitWhitespace(s: string): (r: seq<string>)
    ensures forall k :: 0 <= k < |r| ==> |r[k]| > 0 && forall i :: 0 <= i < |r[k]| ==> !IsWhitespace(r[k][i])
    decreases |s|
  {
    if |s| == 0 then []
    else if IsWhitespace(s[0]) then SplitWhitespace(s[1..])
    else
      var n := WordLength(s);
      [s[..n]] + SplitWhitespace(s[n..])
  }

  function Concat(ws: seq<string>): string
  {
    if |ws| == 0 then [] else ws[0] + Concat(ws[1..])
  }

  function WithoutWhitespace(s: string): string
  {
    if |s| == 0 then [] else (if IsWhitespace(s[0]) then [] else [s[0]]) + WithoutWhitespace(s[1..])
  }

  lemma {:induction false} WordHasNoWhitespace(w: string)
    requires forall i :: 0 <= i < |w| ==> !IsWhitespace(w[i])
    ensures WithoutWhitespace(w) == w
  {
    if |w| > 0 {
      WordHasNoWhitespace(w[1..]);
    }
  }

  lemma {:induction false} WithoutWhitespaceAppend(a: string, b: string)
    ensures WithoutWhitespace(a + b) == WithoutWhitespace(a) + WithoutWhitespace(b)
  {
    if |a| > 0 {
      assert (a + b)[1..] == a[1..] + b;
      WithoutWhitespaceAppend(a[1..], b);
    } else {
      assert a + b == b;
    }
  }

  /** Splitting loses exactly the white space: the tokens put back together are the
      line with its white-space characters removed. */
  lemma {:induction false} SplitKeepsText(s: string)
    ensures Concat(SplitWhitespace(s)) == WithoutWhitespace(s)
    decreases |s|
  {
    if |s| > 0 {
      if IsWhitespace(s[0]) {
        SplitKeepsText(s[1..]);
      } else {
        var n := WordLength(s);
        assert s == s[..n] + s[n..];
        SplitKeepsText(s[n..]);
        WithoutWhitespaceAppend(s[..n], s[n..]);
        WordHasNoWhitespace(s[..n]);
        assert SplitWhitespace(s)[1..] == SplitWhitespace(s[n..]);
      }
    }
  }

  predicate IsWord(w: string)
  {
    |w| > 0 && forall i :: 0 <= i < |w| ==> !IsWhitespace(w[i])
  }

  /** Words separated by single spaces. */
  function JoinWords(ws: seq<string>): string
  {
    if |ws| == 0 then [] else if |ws| == 1 then ws[0] else ws[0] + [' '] + JoinWords(ws[1..])
  }

  lemma {:induction false} WordLengthOf(w: string, rest: string)
    requires IsWord(w) && (|rest| == 0 || IsWhitespace(rest[0]))
    ensures WordLength(w + rest) == |w|
    decreases |w|
  {
    if |w| > 1 {
      assert (w + rest)[1..] == w[1..] + rest;
      WordLengthOf(w[1..], rest);
    }
  }

  /** Splitting words joined by spaces gives the words back. */
  lemma {:induction false} SplitJoin(ws: seq<string>)
    requires forall k :: 0 <= k < |ws| ==> IsWord(ws[k])
    ensures SplitWhitespace(JoinWords(ws)) == ws
  {
    if |ws| == 1 {
      WordLengthOf(ws[0], []);
      assert ws[0] + [] == ws[0];
      assert ws[0][|ws[0]|..] == [];
    } else if |ws| > 1 {
      var rest := [' '] + JoinWords(ws[1..]);
      var s := ws[0] + rest;
      assert JoinWords(ws) == s;
      WordLengthOf(ws[0], rest);
      assert s[..|ws[0]|] == ws[0];
      assert s[|ws[0]|..] == rest;
      assert rest[1..] == JoinWords(ws[1..]);
      SplitJoin(ws[1..]);
      assert SplitWhitespace(rest) == SplitWhitespace(JoinWords(ws[1..]));
    }
  }

  // ----------------------------------------------------------- parse::<usize>

  predicate IsDigit(ch: char)
  {
    '0' <= ch <= '9'
  }

  function DigitValue(ch: char): nat
    requires IsDigit(ch)
  {
    (ch as int - '0' as int) as nat
  }

  /** The value of a string of decimal digits, most significant first. */
  function DigitsValue(s: string): nat
    requires forall i :: 0 <= i < |s| ==> IsDigit(s[i])
  {
    if |s| == 0 then 0 else 10 * DigitsValue(s[..|s| - 1]) + DigitValue(s[|s| - 1])
  }

  predicate AllDigits(s: string)
  {
    |s| > 0 && forall i :: 0 <= i < |s| ==> IsDigit(s[i])
  }

  /** `str::parse::<usize>`: an optional `+` and at least one decimal digit, with no
      overflow past `usize::MAX`. */
  function ParseUsize(s: string): (r: N.Option<nat>)
    ensures r.Some? ==> r.value <= N.USIZE_MAX
    ensures r.Some? ==> AllDigits(s) || (|s| > 0 && s[0] == '+' && AllDigits(s[1..]))
  {
    var digits := if |s| > 0 && s[0] == '+' then s[1..] else s;
    if AllDigits(digits) && DigitsValue(digits) <= N.USIZE_MAX then N.Some(DigitsValue(digits)) else N.None
  }

  /** The decimal text of `n`, without leading zeros. */
  function Show(n: nat): (s: string)
    ensures AllDigits(s)
  {
    if n < 10 then [('0' as int + n) as char] else Show(n / 10) + [('0' as int + n % 10) as char]
  }

  /** Parsing an index's own decimal text gives the index back. */
  lemma {:induction false} ParseShow(n: nat)
    requires n <= N.USIZE_MAX
    ensures ParseUsize(Show(n)) == N.Some(n)
  {
    ShowValue(n);
  }

  lemma {:induction false} ShowValue(n: nat)
    ensures DigitsValue(Show(n)) == n
  {
    if n >= 10 {
      ShowValue(n / 10);
      var s := Show(n);
      assert s[..|s| - 1] == Show(n / 10);
    }
  }

  // -------------------------------------------------------------- Mesh::new

  /** `.flat_map(str::parse)`: the tokens that parse, in order; the others are dropped. */
  function ParseAll<V>(ts: seq<string>, parse: string -> N.Option<V>): (r: seq<V>)
    ensures |r| <= |ts|
  {
    if |ts| == 0 then []
    else (if parse(ts[0]).Some? then [parse(ts[0]).value] else []) + ParseAll(ts[1..], parse)
  }

  /** `.skip(1)`: the tokens after the tag. */
  function Fields(line: string): seq<string>
  {
    var ts := SplitWhitespace(line);
    if |ts| == 0 then [] else ts[1..]
  }

  /** What one line does to the mesh under construction. */
  datatype Action = AddVertex(p: Pt.Point) | AddFace(f: VIndex) | Skip | Panic

  /** One line.  A line starting with 'v' (so also "vn" and "vt") adds a vertex from the
      first three numbers that parse; one starting with 'f' adds a triangle from the first
      three indices that parse, each minus 1.  Fewer than three numbers is an index panic,
      and an index 0 underflows the subtraction.  Every other line is ignored. */
  function ClassifyLine(line: string, parseReal: string -> N.Option<real>): (a: Action)
    ensures a.AddVertex? || (a.Panic? && |line| > 0 && line[0] == 'v')
         <==> |line| > 0 && line[0] == 'v'
    ensures a.AddFace? || (a.Panic? && |line| > 0 && line[0] == 'f')
         <==> |line| > 0 && line[0] == 'f'
    ensures a.Skip? <==> !(|line| > 0 && (line[0] == 'v' || line[0] == 'f'))
    ensures a.AddVertex? ==> (|a.p.c| == 3
      && |ParseAll(Fields(line), parseReal)| >= 3 && a.p.c == ParseAll(Fields(line), parseReal)[..3])
    ensures a.AddFace? ==> (|ParseAll(Fields(line), ParseUsize)| >= 3
      && a.f.i0 + 1 == ParseAll(Fields(line), ParseUsize)[0]
      && a.f.i1 + 1 == ParseAll(Fields(line), ParseUsize)[1]
      && a.f.i2 + 1 == ParseAll(Fields(line), ParseUsize)[2])
  {
    if |line| > 0 && line[0] == 'v' then
      var coord := ParseAll(Fields(line), parseReal);
      if |coord| < 3 then Panic else AddVertex(Pt.Point([coord[0], coord[1], coord[2]]))
    else if |line| > 0 && line[0] == 'f' then
      var ix := ParseAll(Fields(line), ParseUsize);
      if |ix| < 3 then Panic
      else if ix[0] == 0 || ix[1] == 0 || ix[2] == 0 then Panic
      else AddFace(VIndex(ix[0] - 1, ix[1] - 1, ix[2] - 1))
    else Skip
  }

  /** The mesh the first lines build, or `None` once one of them panics. */
  function Loaded(lines: seq<string>, parseReal: string -> N.Option<real>): N.Option<Mesh>
  {
    if |lines| == 0 then N.Some(Mesh([], []))
    else
      match Loaded(lines[..|lines| - 1], parseReal)
      case None => N.None
      case Some(m) =>
        match ClassifyLine(lines[|lines| - 1], parseReal)
        case AddVertex(p) => N.Some(m.(vertex := m.vertex + [p]))
        case AddFace(f) => N.Some(m.(vindex := m.vindex + [f]))
        case Skip => N.Some(m)
        case Panic => N.None
  }

  /** Once a line panics, the whole load does. */
  lemma {:induction false} PanicIsFinal(lines: seq<string>, parseReal: string -> N.Option<real>, k: nat)
    requires k <= |lines| && Loaded(lines[..k], parseReal).None?
    ensures Loaded(lines, parseReal).None?
    decreases |lines| - k
  {
    if k < |lines| {
      assert lines[..k + 1][..k] == lines[..k];
      PanicIsFinal(lines, parseReal, k + 1);
    } else {
      assert lines[..k] == lines;
    }
  }

  /** The load succeeds exactly when no line panics. */
  lemma {:induction false} LoadedSomeIff(lines: seq<string>, parseReal: string -> N.Option<real>)
    ensures Loaded(lines, parseReal).Some? <==> forall k :: 0 <= k < |lines| ==> !ClassifyLine(lines[k], parseReal).Panic?
  {
    if |lines| > 0 {
      var init := lines[..|lines| - 1];
      LoadedSomeIff(init, parseReal);
      forall k | 0 <= k < |init| ensures init[k] == lines[k] { }
    }
  }

  function CountVertexLines(lines: seq<string>, parseReal: string -> N.Option<real>): nat
  {
    if |lines| == 0 then 0
    else (CountVertexLines(lines[..|lines| - 1], parseReal)
      + if ClassifyLine(lines[|lines| - 1], parseReal).AddVertex? then 1 else 0)
  }

  function CountFaceLines(lines: seq<string>, parseReal: string -> N.Option<real>): nat
  {
    if |lines| == 0 then 0
    else (CountFaceLines(lines[..|lines| - 1], parseReal)
      + if ClassifyLine(lines[|lines| - 1], parseReal).AddFace? then 1 else 0)
  }

  /** A successful load holds one vertex per vertex line and one triangle per face line. */
  lemma {:induction false} LoadedCounts(lines: seq<string>, parseReal: string -> N.Option<real>)
    requires Loaded(lines, parseReal).Some?
    ensures |Loaded(lines, parseReal).value.vertex| == CountVertexLines(lines, parseReal)
    ensures |Loaded(lines, parseReal).value.vindex| == CountFaceLines(lines, parseReal)
    ensures Dimension(Loaded(lines, parseReal).value.vertex, 3)
  {
    if |lines| > 0 {
      LoadedCounts(lines[..|lines| - 1], parseReal);
    }
  }

  /** `Mesh::new` over the file's lines: vertices and triangles are pushed line by line;
      `None` is the panic of a malformed line. */
  method Load(lines: seq<string>, parseReal: string -> N.Option<real>) returns (r: N.Option<Mesh>)
    ensures r == Loaded(lines, parseReal)
  {
    var vertex: seq<Pt.Point> := [];
    var index: seq<VIndex> := [];
    for k := 0 to |lines|
      invariant Loaded(lines[..k], parseReal) == N.Some(Mesh(vertex, index))
    {
      assert lines[..k + 1][..k] == lines[..k];
      var a := ClassifyLine(lines[k], parseReal);
      match a {
        case AddVertex(p) => vertex := vertex + [p];
        case AddFace(f) => index := index + [f];
        case Skip =>
        case Panic =>
          PanicIsFinal(lines, parseReal, k + 1);
          return N.None;
      }
    }
    assert lines[..|lines|] == lines;
    r := N.Some(Mesh(vertex, index));
  }

  /** A one-line file whose line adds a face gives a mesh of that face alone. */
  lemma LoadedOneFace(line: string, parseReal: string -> N.Option<real>)
    requires ClassifyLine(line, parseReal).AddFace?
    ensures Loaded([line], parseReal) == N.Some(Mesh([], [ClassifyLine(line, parseReal).f]))
  {
    var lines := [line];
    assert lines[..0] == [];
    assert Loaded(lines[..0], parseReal) == N.Some(Mesh([], []));
    assert lines[0] == line;
    var f := ClassifyLine(line, parseReal).f;
    assert Loaded(lines, parseReal) == N.Some(Mesh([], [] + [f]));
    assert [] + [f] == [f];
  }

  /** Face indices are never checked against the vertex count: a file holding only the
      face "f 1 2 3" loads as a mesh whose triangle names three missing vertices. */
  lemma FaceIndicesUnchecked(line: string, parseReal: string -> N.Option<real>)
    requires line == "f 1 2 3"
    ensures Loaded([line], parseReal) == N.Some(Mesh([], [VIndex(0, 1, 2)]))
    ensures !IndicesValid(Loaded([line], parseReal).value.vertex, Loaded([line], parseReal).value.vindex)
  {
    assert ClassifyLine(line, parseReal) == AddFace(VIndex(0, 1, 2)) by {
      FaceLine(parseReal);
    }
    LoadedOneFace(line, parseReal);
    var m := Loaded([line], parseReal).value;
    assert |m.vertex| == 0 && m.vindex[0].i0 == 0;
  }

  lemma ParseDigit(c: char)
    requires IsDigit(c)
    ensures ParseUsize([c]) == N.Some(DigitValue(c))
  {
    assert [c][..0] == [];
    assert DigitsValue([c]) == DigitValue(c);
  }

  lemma ParseThreeDigits(a: char, b: char, c: char)
    requires IsDigit(a) && IsDigit(b) && IsDigit(c)
    ensures ParseAll([[a], [b], [c]], ParseUsize) == [DigitValue(a), DigitValue(b), DigitValue(c)]
  {
    ParseDigit(a);
    ParseDigit(b);
    ParseDigit(c);
    var ts: seq<string> := [[a], [b], [c]];
    assert ts[1..] == [[b], [c]];
    assert ts[1..][1..] == [[c]];
    assert ParseAll([[c]], ParseUsize) == [DigitValue(c)] by {
      assert [[c]][1..] == [];
    }
  }

  lemma FaceLine(parseReal: string -> N.Option<real>)
    ensures ClassifyLine("f 1 2 3", parseReal) == AddFace(VIndex(0, 1, 2))
  {
    var s := "f 1 2 3";
    assert s == JoinWords(["f", "1", "2", "3"]);
    SplitJoin(["f", "1", "2", "3"]);
    assert Fields(s) == ["1", "2", "3"];
    ParseThreeDigits('1', '2', '3');
  }

  /** A face line with an index 0 panics on the subtraction, because OBJ indices start
      at 1. */
  lemma ZeroIndexPanics(parseReal: string -> N.Option<real>)
    ensures ClassifyLine("f 0 1 2", parseReal) == Panic
  {
    var s := "f 0 1 2";
    assert s == JoinWords(["f", "0", "1", "2"]);
    SplitJoin(["f", "0", "1", "2"]);
    assert Fields(s) == ["0", "1", "2"];
    ParseThreeDigits('0', '1', '2');
  }
}
