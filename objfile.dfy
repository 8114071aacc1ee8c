/** The bookkeeping of Wavefront OBJ import and export (OBJFileUtils.py),
    over text lines already split into tokens.  Reading files, the file
    dialogs and the text of floating-point numbers are outside the model:
    `float(k)` is a parameter, and the `.mtl` library named by `mtllib`
    arrives as its token lines. */
module ObjFiles {
  import opened LinAlg
  import opened Wrappers
  import opened Objects

  const ValueError := "ValueError"
  const IndexError := "IndexError"
  const KeyError := "KeyError"
  const TypeError := "TypeError"
  const UnboundLocalError := "UnboundLocalError"

  // ---------------------------------------------------------------------
  // Integer text: int(k) and str(n)
  // ---------------------------------------------------------------------

  predicate IsDigit(c: char) {
    '0' <= c <= '9'
  }

  predicate AllDigits(s: string) {
    forall i :: 0 <= i < |s| ==> IsDigit(s[i])
  }

  /** The value of a run of decimal digits. */
  function DigitsValue(s: string): nat
    requires AllDigits(s)
  {
    if s == [] then 0 else DigitsValue(s[..|s| - 1]) * 10 + (s[|s| - 1] as int - '0' as int)
  }

  /** `int(k)` of a token: an optional sign and at least one decimal digit;
      None where Python raises ValueError. */
  function ParseInt(k: string): Option<int> {
    if |k| > 0 && (k[0] == '-' || k[0] == '+') then
      if |k| > 1 && AllDigits(k[1..]) then
        Some(if k[0] == '-' then -(DigitsValue(k[1..]) as int) else DigitsValue(k[1..]))
      else None
    else if |k| > 0 && AllDigits(k) then Some(DigitsValue(k))
    else None
  }

  function DigitChar(d: nat): char
    requires d < 10
  {
    ('0' as int + d) as char
  }

  /** `str(n)` for a natural number. */
  function Decimal(n: nat): (r: string)
    ensures |r| > 0 && AllDigits(r)
  {
    if n < 10 then [DigitChar(n)] else Decimal(n / 10) + [DigitChar(n % 10)]
  }

  /** `str(i)` for any integer. */
  function IntString(i: int): string {
    if i < 0 then "-" + Decimal(-i) else Decimal(i)
  }

  lemma {:induction false} DecimalValue(n: nat)
    ensures DigitsValue(Decimal(n)) == n
  {
    if n >= 10 {
      DecimalValue(n / 10);
      var s := Decimal(n);
      assert s[..|s| - 1] == Decimal(n / 10);
    }
  }

  /** `int(str(n)) == n`, so `str` is one-to-one. */
  lemma ParseDecimal(n: nat)
    ensures ParseInt(Decimal(n)) == Some(n)
    ensures '-' !in Decimal(n)
  {
    DecimalValue(n);
    var s := Decimal(n);
    assert IsDigit(s[0]);
  }

  /** A "-" before a run of digits reads as the negated run. */
  lemma ParseNegative(d: string)
    requires |d| > 0 && AllDigits(d)
    ensures ParseInt("-" + d) == Some(-(DigitsValue(d) as int)) && '-' in "-" + d
  {
    assert ("-" + d)[1..] == d;
  }

  lemma ParseIntString(i: int)
    ensures ParseInt(IntString(i)) == Some(i)
  {
    if i < 0 {
      ParseNegative(Decimal(-i));
      DecimalValue(-i);
    } else {
      ParseDecimal(i);
    }
  }

  lemma DecimalInjective(m: nat, n: nat)
    ensures Decimal(m) == Decimal(n) <==> m == n
  {
    ParseDecimal(m);
    ParseDecimal(n);
  }

  // ---------------------------------------------------------------------
  // Vertex indices
  // ---------------------------------------------------------------------

  /** The index an `l` or `f` token names: k - 1 for a token without "-",
      the value itself, counted from the end, for a token with one. */
  function LineIndex(k: string): Option<int> {
    match ParseInt(k)
    case None => None
    case Some(v) => Some(if '-' in k then v else v - 1)
  }

  /** The index a `p` token names: k - 1 always. */
  function PointIndex(k: string): Option<int> {
    match ParseInt(k)
    case None => None
    case Some(v) => Some(v - 1)
  }

  /** Python list indexing: a negative index counts from the end; None
      where Python raises IndexError. */
  function PyIndex<T>(xs: seq<T>, i: int): Option<T> {
    if 0 <= i < |xs| then Some(xs[i])
    else if -|xs| <= i < 0 then Some(xs[|xs| + i])
    else None
  }

  /** Token k + 1 of an `l` or `f` line names vertex k, and token "-n" the
      n-th vertex from the end; in a `p` line the same "-n" names the
      (n + 1)-th from the end, and "0" the last vertex. */
  lemma IndexTokens<T>(vs: seq<T>, k: nat, n: nat)
    ensures k < |vs| ==> LineIndex(Decimal(k + 1)) == Some(k) && PyIndex(vs, k) == Some(vs[k])
    ensures 1 <= n <= |vs| ==> LineIndex("-" + Decimal(n)) == Some(-(n as int)) && PyIndex(vs, -(n as int)) == Some(vs[|vs| - n])
    ensures PointIndex("-" + Decimal(n)) == Some(-(n as int) - 1)
    ensures PointIndex(Decimal(0)) == Some(-1) && (|vs| > 0 ==> PyIndex(vs, -1) == Some(vs[|vs| - 1]))
    ensures PointIndex(Decimal(k + 1)) == Some(k)
  {
    assert LineIndex(Decimal(k + 1)) == Some(k) && PointIndex(Decimal(k + 1)) == Some(k) by {
      ParseDecimal(k + 1);
    }
    assert PointIndex(Decimal(0)) == Some(-1) by {
      ParseDecimal(0);
    }
    assert ParseInt("-" + Decimal(n)) == Some(-(n as int)) && '-' in "-" + Decimal(n) by {
      ParseNegative(Decimal(n));
      DecimalValue(n);
    }
  }

  /** The indices a list of `l` or `f` tokens names, or None when one of
      them is not an integer. */
  function LineIndices(ks: seq<string>): (r: Option<seq<int>>)
    ensures r.Some? ==> |r.value| == |ks|
  {
    if ks == [] then Some([])
    else
      match (LineIndices(ks[..|ks| - 1]), LineIndex(ks[|ks| - 1]))
      case (Some(idx), Some(i)) => Some(idx + [i])
      case _ => None
  }

  /** The vertices a list of indices picks, or None when one is out of range. */
  function Resolve<T>(vs: seq<T>, idx: seq<int>): (r: Option<seq<T>>)
    ensures r.Some? ==> |r.value| == |idx|
  {
    if idx == [] then Some([])
    else
      match (Resolve(vs, idx[..|idx| - 1]), PyIndex(vs, idx[|idx| - 1]))
      case (Some(ps), Some(p)) => Some(ps + [p])
      case _ => None
  }

  /** Exactly the lists whose every entry resolves resolve, and entry i of
      the result is what index i picks. */
  lemma {:induction false} ResolveSpec<T>(vs: seq<T>, idx: seq<int>)
    ensures Resolve(vs, idx).Some? <==> forall i :: 0 <= i < |idx| ==> -|vs| <= idx[i] < |vs|
    ensures Resolve(vs, idx).Some? ==>
              forall i :: 0 <= i < |idx| ==> PyIndex(vs, idx[i]) == Some(Resolve(vs, idx).value[i])
  {
    if idx != [] {
      ResolveSpec(vs, idx[..|idx| - 1]);
      var n := |idx| - 1;
      if Resolve(vs, idx).Some? {
        forall i | 0 <= i < |idx| ensures PyIndex(vs, idx[i]) == Some(Resolve(vs, idx).value[i]) {
          if i < n { assert idx[i] == idx[..n][i]; }
        }
      }
      if forall i :: 0 <= i < |idx| ==> -|vs| <= idx[i] < |vs| {
        forall i | 0 <= i < n ensures -|vs| <= idx[..n][i] < |vs| {
          assert idx[..n][i] == idx[i];
        }
      } else if Resolve(vs, idx[..n]).Some? {
        var i :| 0 <= i < |idx| && !(-|vs| <= idx[i] < |vs|);
        if i < n { assert idx[..n][i] == idx[i]; }
      }
    }
  }

  // ---------------------------------------------------------------------
  // Parser state
  // ---------------------------------------------------------------------

  /** A vertex as read from a `v` line: its coordinates, as many as given. */
  type Vertex = seq<real>

  /** The "type" of an imported element. */
  datatype Kind = PointKind | LineKind | WireframeKind | FacedKind

  /** An imported element: its type, its colour, its coordinates and, for a
      faced object, its edges as positions in its coordinates. */
  datatype Element = Element(kind: Kind, color: string, coordinates: seq<Vertex>, edges: seq<(int, int)>)

  /** The parser's state: the vertex list, the elements by name, the order
      in which the names were first stored, and the material colours. */
  datatype Store = Store(vertices: seq<Vertex>, elements: map<string, Element>, names: seq<string>,
                         materials: map<string, string>)

  /** The import loop's current object name, group name and colour. */
  datatype Cursor = Cursor(objectName: Option<string>, groupName: string, color: string)

  const StartCursor := Cursor(None, "default_group", "#000000")

  const EmptyStore := Store([], map[], [], map[])

  /** The names are the element keys, each once. */
  ghost predicate Consistent(st: Store) {
    NoDuplicates(st.names) && (forall n :: n in st.elements <==> n in st.names)
  }

  /** `self.__objects[name] = e`: a new name goes to the end of the key
      order, an existing one keeps its place. */
  function Put(st: Store, name: string, e: Element): (r: Store)
    ensures Consistent(st) ==> Consistent(r)
    ensures r.elements == st.elements[name := e] && r.vertices == st.vertices && r.materials == st.materials
  {
    st.(elements := st.elements[name := e], names := if name in st.elements then st.names else st.names + [name])
  }

  /** `__get_object_name`: the current `o` name while it is set and not yet
      used by an element, otherwise the current group name. */
  function ObjectName(st: Store, cur: Cursor): (r: string)
    ensures r == cur.groupName || r !in st.elements
    ensures r != cur.groupName ==> cur.objectName == Some(r)
    ensures cur.objectName.Some? && cur.objectName.value !in st.elements ==> r == cur.objectName.value
  {
    if cur.objectName.Some? && cur.objectName.value !in st.elements then cur.objectName.value
    else cur.groupName
  }

  /** `__create_point`: one vertex, picked by k - 1. */
  function CreatePoint(st: Store, k: string, color: string, name: string): Result<Store, string> {
    match PointIndex(k)
    case None => Err(ValueError)
    case Some(i) =>
      match PyIndex(st.vertices, i)
      case None => Err(IndexError)
      case Some(v) => Ok(Put(st, name, Element(PointKind, color, [v], [])))
  }

  /** `__create_line_or_wireframe`: two vertices are a line; any other
      number is a wireframe whose last (closing) vertex is dropped, and an
      empty list cannot be popped. */
  function CreateLineOrWireframe(st: Store, ks: seq<string>, color: string, name: string): Result<Store, string> {
    match LineIndices(ks)
    case None => Err(ValueError)
    case Some(idx) =>
      match Resolve(st.vertices, idx)
      case None => Err(IndexError)
      case Some(vs) =>
        if |vs| == 2 then Ok(Put(st, name, Element(LineKind, color, vs, [])))
        else if vs == [] then Err(IndexError)
        else Ok(Put(st, name, Element(WireframeKind, color, vs[..|vs| - 1], [])))
  }

  /** `p n` with n the decimal of 1 <= n (the number the export writes)
      stores vertex n - 1, or raises IndexError past the last vertex; `p 0`
      stores the last vertex, as Python's index -1 does. */
  lemma CreatePointCases(st: Store, n: nat, color: string, name: string)
    requires 1 <= n
    ensures n <= |st.vertices| ==>
              CreatePoint(st, Decimal(n), color, name)
              == Ok(Put(st, name, Element(PointKind, color, [st.vertices[n - 1]], [])))
    ensures n > |st.vertices| ==> CreatePoint(st, Decimal(n), color, name) == Err(IndexError)
    ensures st.vertices != [] ==>
              CreatePoint(st, "0", color, name)
              == Ok(Put(st, name, Element(PointKind, color, [st.vertices[|st.vertices| - 1]], [])))
  {
    ParseDecimal(n);
    ParseDecimal(0);
    assert Decimal(0) == "0";
  }

  /** `l a b` with two valid vertex numbers is the line through vertices
      a - 1 and b - 1; a single number is a wireframe left with no vertex,
      its one vertex popped as the closing one; no number at all raises
      IndexError from the pop of an empty list. */
  lemma CreateLineCases(st: Store, a: nat, b: nat, color: string, name: string)
    requires 1 <= a <= |st.vertices| && 1 <= b <= |st.vertices|
    ensures CreateLineOrWireframe(st, [Decimal(a), Decimal(b)], color, name)
            == Ok(Put(st, name, Element(LineKind, color, [st.vertices[a - 1], st.vertices[b - 1]], [])))
    ensures CreateLineOrWireframe(st, [Decimal(a)], color, name)
            == Ok(Put(st, name, Element(WireframeKind, color, [], [])))
    ensures CreateLineOrWireframe(st, [], color, name) == Err(IndexError)
  {
    TwoIndices(st.vertices, a, b);
    OneIndex(st.vertices, a);
    assert [st.vertices[a - 1]][..0] == [];
  }

  /** `l a b` picks vertices a - 1 and b - 1. */
  lemma TwoIndices(vertices: seq<Vertex>, a: nat, b: nat)
    requires 1 <= a <= |vertices| && 1 <= b <= |vertices|
    ensures LineIndices([Decimal(a), Decimal(b)]) == Some([a - 1, b - 1])
    ensures Resolve(vertices, [a - 1, b - 1]) == Some([vertices[a - 1], vertices[b - 1]])
  {
    TwoTokens(a, b);
    OneIndex(vertices, a);
    var idx := [a - 1, b - 1];
    assert idx[..1] == [a - 1] && idx[1] == b - 1;
    assert PyIndex(vertices, b - 1) == Some(vertices[b - 1]);
    assert [vertices[a - 1]] + [vertices[b - 1]] == [vertices[a - 1], vertices[b - 1]];
  }

  lemma TwoTokens(a: nat, b: nat)
    requires 1 <= a && 1 <= b
    ensures LineIndices([Decimal(a), Decimal(b)]) == Some([a - 1, b - 1])
  {
    OneToken(a);
    LineIndexDecimal(b);
    var ks := [Decimal(a), Decimal(b)];
    assert ks[..1] == [Decimal(a)] && ks[1] == Decimal(b);
    assert [a - 1] + [b - 1] == [a - 1, b - 1];
  }

  /** `l a` picks vertex a - 1. */
  lemma OneIndex(vertices: seq<Vertex>, a: nat)
    requires 1 <= a <= |vertices|
    ensures LineIndices([Decimal(a)]) == Some([a - 1])
    ensures Resolve(vertices, [a - 1]) == Some([vertices[a - 1]])
  {
    OneToken(a);
    var idx := [a - 1];
    assert idx[..0] == [] && idx[0] == a - 1;
    assert PyIndex(vertices, a - 1) == Some(vertices[a - 1]);
    assert [] + [vertices[a - 1]] == [vertices[a - 1]];
  }

  lemma OneToken(a: nat)
    requires 1 <= a
    ensures LineIndices([Decimal(a)]) == Some([a - 1])
  {
    LineIndexDecimal(a);
    var ks := [Decimal(a)];
    assert ks[..0] == [] && ks[0] == Decimal(a);
    assert [] + [a - 1] == [a - 1];
  }

  /** `list(set(face).difference(set(current)))` as the source computes it:
      the face vertices not in `current`, each once, in the order the set
      iteration gives, which Python leaves unspecified. */
  ghost predicate IsDifference(d: seq<Vertex>, face: seq<Vertex>, current: seq<Vertex>) {
    NoDuplicates(d) && forall v :: v in d <==> v in face && v !in current
  }

  /** Every vertex of the face has a position in `current`. */
  predicate AllIn(face: seq<Vertex>, current: seq<Vertex>) {
    forall v :: v in face ==> v in current
  }

  /** One such list: the missing face vertices in order of first appearance. */
  function Missing(current: seq<Vertex>, face: seq<Vertex>): (r: seq<Vertex>)
  {
    if face == [] then []
    else
      var r := Missing(current, face[..|face| - 1]);
      var v := face[|face| - 1];
      if v in current || v in r then r else r + [v]
  }

  lemma {:induction false} MissingSpec(current: seq<Vertex>, face: seq<Vertex>)
    ensures IsDifference(Missing(current, face), face, current)
  {
    if face != [] {
      var n := |face| - 1;
      MissingSpec(current, face[..n]);
      assert face == face[..n] + [face[n]];
    }
  }

  /** The last position of v in s: the entry a `{vertex: index}` dict
      comprehension keeps. */
  function LastIndex(s: seq<Vertex>, v: Vertex): (r: nat)
    requires v in s
    ensures r < |s| && s[r] == v && forall j :: r < j < |s| ==> s[j] != v
  {
    if s[|s| - 1] == v then |s| - 1
    else
      assert v in s[..|s| - 1] by {
        var i :| 0 <= i < |s| && s[i] == v;
        assert s[..|s| - 1][i] == v;
      }
      LastIndex(s[..|s| - 1], v)
  }

  /** `__get_edges_with_current_index_list`: the closed cycle through the
      face vertices, each mapped to its position in `current`. */
  function EdgeList(current: seq<Vertex>, face: seq<Vertex>): (r: seq<(int, int)>)
    requires |face| > 0 && forall v :: v in face ==> v in current
    ensures |r| == |face|
    ensures forall i :: 0 <= i < |face| ==>
              0 <= r[i].0 < |current| && current[r[i].0] == face[i] &&
              0 <= r[i].1 < |current| && current[r[i].1] == face[(i + 1) % |face|]
  {
    seq(|face|, i requires 0 <= i < |face| => EdgeAt(current, face, i))
  }

  /** Edge i of the cycle: face vertex i to the next one, wrapping round. */
  function EdgeAt(current: seq<Vertex>, face: seq<Vertex>, i: nat): (r: (int, int))
    requires i < |face| && forall v :: v in face ==> v in current
    ensures 0 <= r.0 < |current| && current[r.0] == face[i]
    ensures 0 <= r.1 < |current| && current[r.1] == face[(i + 1) % |face|]
  {
    var j := (i + 1) % |face|;
    assert face[i] in face && face[j] in face;
    (LastIndex(current, face[i]), LastIndex(current, face[j]))
  }

  /** The edges chain: each edge ends where the next one starts, and the
      last one returns to the first. */
  lemma EdgeListCycle(current: seq<Vertex>, face: seq<Vertex>)
    requires |face| > 0 && forall v :: v in face ==> v in current
    ensures var r := EdgeList(current, face);
            forall i :: 0 <= i < |r| ==> r[i].1 == r[(i + 1) % |r|].0
  {
    var r := EdgeList(current, face);
    forall i | 0 <= i < |r| ensures r[i].1 == r[(i + 1) % |r|].0 {
      var j := (i + 1) % |r|;
      assert r[i] == EdgeAt(current, face, i);
      assert r[j] == EdgeAt(current, face, j);
    }
  }

  /** `__add_face_to_current_group`, with `difference` standing for the
      listed set difference.  A new name gets a faced element of all the
      face vertices, in order and with repeats; an existing faced element
      gets the listed vertices appended and the face's edge cycle.  Merging
      into an element of another type fails: its coordinate lists cannot go
      in a set, and when it has none (a wireframe from a one-vertex `l`
      line) the edges are computed and then it has no "edges" entry.  An
      empty face has no last index, and a face vertex missing from the
      coordinates has no position. */
  function AddFace(st: Store, ks: seq<string>, color: string, name: string,
                   difference: (seq<Vertex>, seq<Vertex>) -> seq<Vertex>): Result<Store, string> {
    match LineIndices(ks)
    case None => Err(ValueError)
    case Some(idx) =>
      match Resolve(st.vertices, idx)
      case None => Err(IndexError)
      case Some(face) =>
        if name in st.elements then
          var e := st.elements[name];
          if e.kind != FacedKind then
            if e.coordinates != [] then Err(TypeError)
            else if face == [] then Err(IndexError)
            else Err(KeyError)
          else
            var coords := e.coordinates + difference(face, e.coordinates);
            if face == [] then Err(IndexError)
            else if !AllIn(face, coords) then Err(KeyError)
            else Ok(Put(st, name, e.(coordinates := coords, edges := e.edges + EdgeList(coords, face))))
        else if face == [] then Err(IndexError)
        else Ok(Put(st, name, Element(FacedKind, color, face, EdgeList(face, face))))
  }

  /** A face of resolvable vertices merged into an existing faced element
      succeeds whatever order the set difference is listed in: the old
      coordinates come first, the appended ones are the face vertices not
      yet present, each once, so every face vertex is among the
      coordinates; the colour is kept and the face's cycle is appended to
      the edges. */
  lemma AddFaceMerges(st: Store, ks: seq<string>, color: string, name: string,
                      difference: (seq<Vertex>, seq<Vertex>) -> seq<Vertex>, face: seq<Vertex>)
    requires LineIndices(ks).Some? && Resolve(st.vertices, LineIndices(ks).value) == Some(face) && face != []
    requires name in st.elements && st.elements[name].kind == FacedKind
    requires IsDifference(difference(face, st.elements[name].coordinates), face, st.elements[name].coordinates)
    ensures AddFace(st, ks, color, name, difference).Ok?
    ensures var e, e' := st.elements[name], AddFace(st, ks, color, name, difference).value.elements[name];
            && e'.kind == FacedKind && e'.color == e.color
            && |e.coordinates| <= |e'.coordinates| && e'.coordinates[..|e.coordinates|] == e.coordinates
            && (forall v :: v in face ==> v in e'.coordinates)
            && NoDuplicates(e'.coordinates[|e.coordinates|..])
            && (forall v :: v in e'.coordinates[|e.coordinates|..] <==> v in face && v !in e.coordinates)
            && e'.edges == e.edges + EdgeList(e'.coordinates, face)
  {
    var e := st.elements[name];
    var d := difference(face, e.coordinates);
    var coords := e.coordinates + d;
    assert coords[|e.coordinates|..] == d;
    assert forall v :: v in face ==> v in coords;
  }

  /** So the merge above is not vacuous: the first-appearance list is one
      listing of the difference. */
  lemma DifferenceListed(current: seq<Vertex>, face: seq<Vertex>)
    ensures exists d :: IsDifference(d, face, current)
  {
    MissingSpec(current, face);
  }

  // ---------------------------------------------------------------------
  // Colours
  // ---------------------------------------------------------------------

  /** Python's int() of a float: truncation toward zero. */
  function Trunc(x: real): int {
    if x >= 0.0 then x.Floor else -((-x).Floor)
  }

  function HexChar(d: nat): char
    requires d < 16
  {
    if d < 10 then ('0' as int + d) as char else ('a' as int + d - 10) as char
  }

  /** The lower-case hexadecimal digits of n. */
  function HexDigits(n: nat): (r: string)
    ensures |r| > 0
  {
    if n < 16 then [HexChar(n)] else HexDigits(n / 16) + [HexChar(n % 16)]
  }

  /** `f"{n:02x}"`: at least two characters, the sign counting as one. */
  function Hex02(n: int): string {
    if n < 0 then "-" + HexDigits(-n)
    else if n < 16 then "0" + HexDigits(n)
    else HexDigits(n)
  }

  /** `__get_hex_from_rgb`: "#" and two hex digits per channel of
      int(c * 255); fewer than three channels raise IndexError. */
  function HexFromRgb(rgb: seq<real>): Option<string> {
    if |rgb| < 3 then None
    else Some("#" + Hex02(Trunc(rgb[0] * 255.0)) + Hex02(Trunc(rgb[1] * 255.0)) + Hex02(Trunc(rgb[2] * 255.0)))
  }

  predicate IsHexDigit(c: char) {
    '0' <= c <= '9' || 'a' <= c <= 'f' || 'A' <= c <= 'F'
  }

  function HexValue(c: char): nat
    requires IsHexDigit(c)
  {
    if '0' <= c <= '9' then c as int - '0' as int
    else if 'a' <= c <= 'f' then c as int - 'a' as int + 10
    else c as int - 'A' as int + 10
  }

  predicate AllHex(s: string) {
    forall i :: 0 <= i < |s| ==> IsHexDigit(s[i])
  }

  function HexRunValue(s: string): nat
    requires AllHex(s)
  {
    if s == [] then 0 else HexRunValue(s[..|s| - 1]) * 16 + HexValue(s[|s| - 1])
  }

  /** `int(s, 16)`: an optional sign and at least one hex digit. */
  function ParseHex(s: string): Option<int> {
    if |s| > 0 && (s[0] == '-' || s[0] == '+') then
      if |s| > 1 && AllHex(s[1..]) then
        Some(if s[0] == '-' then -(HexRunValue(s[1..]) as int) else HexRunValue(s[1..]))
      else None
    else if |s| > 0 && AllHex(s) then Some(HexRunValue(s))
    else None
  }

  /** `s.lstrip(c)`. */
  function LStrip(s: string, c: char): (r: string)
    ensures |r| <= |s| && r == s[|s| - |r|..]
    ensures r == [] || r[0] != c
  {
    if |s| > 0 && s[0] == c then LStrip(s[1..], c) else s
  }

  /** `s[i:j]` for 0 <= i <= j: clipped to the string. */
  function Slice(s: string, i: nat, j: nat): string
    requires i <= j
  {
    if i >= |s| then [] else s[i..if j <= |s| then j else |s|]
  }

  /** The colour key of an object: the three channel integers of
      `__get_rgb_str_from_hex`, or None when one is not hexadecimal.  (The
      source writes them as c / 255 with six decimals; distinct integers
      give distinct texts, so the integers stand for the key.) */
  function RgbFromHex(hex: string): Option<(int, int, int)> {
    var h := LStrip(hex, '#');
    match (ParseHex(Slice(h, 0, 2)), ParseHex(Slice(h, 2, 4)), ParseHex(Slice(h, 4, 6)))
    case (Some(r), Some(g), Some(b)) => Some((r, g, b))
    case _ => None
  }

  lemma HexCharValue(d: nat)
    requires d < 16
    ensures IsHexDigit(HexChar(d)) && HexValue(HexChar(d)) == d
  {
  }

  lemma HexPair(n: nat)
    requires n < 256
    ensures |Hex02(n)| == 2 && IsHexDigit(Hex02(n)[0]) && ParseHex(Hex02(n)) == Some(n)
  {
    var s := Hex02(n);
    var hi, lo := n / 16, n % 16;
    HexCharValue(hi);
    HexCharValue(lo);
    assert s == [HexChar(hi), HexChar(lo)] by {
      if n >= 16 {
        assert HexDigits(hi) == [HexChar(hi)];
      }
    }
    assert s[..1] == [HexChar(hi)];
    assert [HexChar(hi)][..0] == [];
    assert HexRunValue(s[..1]) == hi;
    assert n == hi * 16 + lo;
  }

  /** The three two-character fields of a six-character text. */
  lemma SliceThree(a: string, b: string, c: string)
    requires |a| == 2 && |b| == 2 && |c| == 2
    ensures Slice(a + b + c, 0, 2) == a && Slice(a + b + c, 2, 4) == b && Slice(a + b + c, 4, 6) == c
  {
    var s := a + b + c;
    assert s[0..2] == a;
    assert s[2..4] == b;
    assert s[4..6] == c;
  }

  /** Reading back a colour written from channels whose int(c * 255) lies
      in 0 .. 255 gives those integers. */
  lemma RgbRoundTrip(rgb: seq<real>)
    requires |rgb| >= 3
    requires forall i :: 0 <= i < 3 ==> 0 <= Trunc(rgb[i] * 255.0) < 256
    ensures HexFromRgb(rgb).Some?
    ensures RgbFromHex(HexFromRgb(rgb).value)
         == Some((Trunc(rgb[0] * 255.0), Trunc(rgb[1] * 255.0), Trunc(rgb[2] * 255.0)))
  {
    var r, g, b := Trunc(rgb[0] * 255.0), Trunc(rgb[1] * 255.0), Trunc(rgb[2] * 255.0);
    assert 0 <= r < 256 && 0 <= g < 256 && 0 <= b < 256 by {
      assert 0 <= Trunc(rgb[0] * 255.0) < 256;
      assert 0 <= Trunc(rgb[1] * 255.0) < 256;
      assert 0 <= Trunc(rgb[2] * 255.0) < 256;
    }
    HexThree(r, g, b);
  }

  /** "#" and three two-digit fields read back as the three numbers. */
  lemma HexThree(r: nat, g: nat, b: nat)
    requires r < 256 && g < 256 && b < 256
    ensures RgbFromHex("#" + Hex02(r) + Hex02(g) + Hex02(b)) == Some((r, g, b))
  {
    HexPair(r);
    HexPair(g);
    HexPair(b);
    RgbFromFields(Hex02(r), Hex02(g), Hex02(b), r, g, b);
  }

  /** "#" and three two-character fields that read as r, g and b. */
  lemma RgbFromFields(x: string, y: string, z: string, r: int, g: int, b: int)
    requires |x| == 2 && |y| == 2 && |z| == 2 && IsHexDigit(x[0])
    requires ParseHex(x) == Some(r) && ParseHex(y) == Some(g) && ParseHex(z) == Some(b)
    ensures RgbFromHex("#" + x + y + z) == Some((r, g, b))
  {
    var body := x + y + z;
    assert "#" + x + y + z == "#" + body;
    assert body[0] == x[0];
    StripOneHash(body);
    SliceThree(x, y, z);
  }

  /** One leading '#' before a body that does not start with '#' is
      stripped, and nothing more. */
  lemma StripOneHash(body: string)
    requires |body| > 0 && body[0] != '#'
    ensures LStrip("#" + body, '#') == body
  {
    assert ("#" + body)[1..] == body;
  }

  /** `__get_current_kd_str_mtl`: the name of material number kd. */
  function ColorName(kd: nat): string {
    "color" + Decimal(kd)
  }

  lemma ColorNamesDistinct(i: nat, j: nat)
    ensures ColorName(i) == ColorName(j) <==> i == j
  {
    DecimalInjective(i, j);
    if ColorName(i) == ColorName(j) {
      assert ColorName(i)[5..] == Decimal(i);
      assert ColorName(j)[5..] == Decimal(j);
    }
  }

  // ---------------------------------------------------------------------
  // Line dispatch
  // ---------------------------------------------------------------------

  /** `float(k)` of every token, or None when one is not a number. */
  function Floats(ks: seq<string>, toReal: string -> Option<real>): (r: Option<seq<real>>)
    ensures r.Some? ==> |r.value| == |ks|
  {
    if ks == [] then Some([])
    else
      match (Floats(ks[..|ks| - 1], toReal), toReal(ks[|ks| - 1]))
      case (Some(xs), Some(x)) => Some(xs + [x])
      case _ => None
  }

  /** `__parse_mtl` from the given line on: `newmtl` names the current
      material, `Kd` gives it its colour.  The colour is computed before
      the material is looked up, so a `Kd` line raises ValueError or
      IndexError for bad values first, and UnboundLocalError before any
      `newmtl` only when its values are good. */
  function ParseMtl(materials: map<string, string>, current: Option<string>, lines: seq<seq<string>>,
                    toReal: string -> Option<real>): Result<map<string, string>, string>
    decreases |lines|
  {
    if lines == [] then Ok(materials)
    else
      var e := lines[0];
      if e == [] then ParseMtl(materials, current, lines[1..], toReal)
      else if e[0] == "newmtl" then
        if |e| < 2 then Err(IndexError) else ParseMtl(materials, Some(e[1]), lines[1..], toReal)
      else if e[0] == "Kd" then
        match Floats(e[1..], toReal)
        case None => Err(ValueError)
        case Some(rgb) =>
          match HexFromRgb(rgb)
          case None => Err(IndexError)
          case Some(h) =>
            if current.None? then Err(UnboundLocalError)
            else ParseMtl(materials[current.value := h], current, lines[1..], toReal)
      else ParseMtl(materials, current, lines[1..], toReal)
  }

  /** A `newmtl n` line and then a `Kd` line with good values give n the
      hex of those values and leave n the current material; the same `Kd`
      line before any `newmtl` raises UnboundLocalError. */
  lemma ParseMtlDefines(materials: map<string, string>, current: Option<string>, n: string,
                        ks: seq<string>, rest: seq<seq<string>>, toReal: string -> Option<real>,
                        rgb: seq<real>, h: string)
    requires Floats(ks, toReal) == Some(rgb) && HexFromRgb(rgb) == Some(h)
    ensures ParseMtl(materials, current, [["newmtl", n], ["Kd"] + ks] + rest, toReal)
            == ParseMtl(materials[n := h], Some(n), rest, toReal)
    ensures ParseMtl(materials, None, [["Kd"] + ks] + rest, toReal) == Err(UnboundLocalError)
  {
  }

  /** The library that defines each name in turn: a `newmtl` line and then
      a `Kd` line with its values. */
  function MtlLines(names: seq<string>, values: seq<seq<string>>): (r: seq<seq<string>>)
    requires |names| == |values|
    ensures |r| == 2 * |names|
  {
    if names == [] then []
    else [["newmtl", names[0]], ["Kd"] + values[0]] + MtlLines(names[1..], values[1..])
  }

  /** The materials after each name is given its hex in turn: every name
      defined is present, a later definition replaces an earlier one, and
      every other entry is kept. */
  function Defined(m: map<string, string>, names: seq<string>, hexes: seq<string>): (r: map<string, string>)
    requires |names| == |hexes|
    ensures forall k :: k in r <==> k in m || k in names
    ensures forall k :: k in m && k !in names ==> r[k] == m[k]
    ensures forall i :: 0 <= i < |names| && names[i] !in names[i + 1..] ==> r[names[i]] == hexes[i]
    decreases |names|
  {
    if names == [] then m
    else
      var r := Defined(m[names[0] := hexes[0]], names[1..], hexes[1..]);
      assert forall i :: 1 <= i < |names| ==> names[i] == names[1..][i - 1] && names[i + 1..] == names[1..][i..];
      r
  }

  /** A library of definitions, each with good `Kd` values, reads as the
      materials with each name given the hex of its values in turn. */
  lemma {:induction false} ParseMtlDefinesAll(materials: map<string, string>, current: Option<string>,
                                              names: seq<string>, values: seq<seq<string>>,
                                              toReal: string -> Option<real>, hexes: seq<string>)
    requires |names| == |values| == |hexes|
    requires forall i :: 0 <= i < |names| ==>
               Floats(values[i], toReal).Some? && HexFromRgb(Floats(values[i], toReal).value) == Some(hexes[i])
    ensures ParseMtl(materials, current, MtlLines(names, values), toReal) == Ok(Defined(materials, names, hexes))
    decreases |names|
  {
    if names != [] {
      var rest := MtlLines(names[1..], values[1..]);
      ParseMtlDefines(materials, current, names[0], values[0], rest, toReal,
                      Floats(values[0], toReal).value, hexes[0]);
      ParseMtlDefinesAll(materials[names[0] := hexes[0]], Some(names[0]), names[1..], values[1..],
                         toReal, hexes[1..]);
    }
  }

  /** A name that is not the current material and that no `newmtl` line
      names keeps its entry, or its absence, through the whole library. */
  lemma {:induction false} ParseMtlKeeps(materials: map<string, string>, current: Option<string>,
                                         lines: seq<seq<string>>, toReal: string -> Option<real>, k: string)
    requires current != Some(k)
    requires forall i :: 0 <= i < |lines| && |lines[i]| >= 2 && lines[i][0] == "newmtl" ==> lines[i][1] != k
    requires ParseMtl(materials, current, lines, toReal).Ok?
    ensures var r := ParseMtl(materials, current, lines, toReal).value;
            (k in r <==> k in materials) && (k in materials ==> r[k] == materials[k])
    decreases |lines|
  {
    if lines != [] {
      var e := lines[0];
      forall i | 0 <= i < |lines[1..]| && |lines[1..][i]| >= 2 && lines[1..][i][0] == "newmtl"
        ensures lines[1..][i][1] != k
      {
        assert lines[1..][i] == lines[i + 1];
      }
      if e == [] {
        ParseMtlKeeps(materials, current, lines[1..], toReal, k);
      } else if e[0] == "newmtl" {
        assert lines[0] == e;
        ParseMtlKeeps(materials, Some(e[1]), lines[1..], toReal, k);
      } else if e[0] == "Kd" {
        var h := HexFromRgb(Floats(e[1..], toReal).value).value;
        ParseMtlKeeps(materials[current.value := h], current, lines[1..], toReal, k);
      } else {
        ParseMtlKeeps(materials, current, lines[1..], toReal, k);
      }
    }
  }

  /** What the import is given: the lines of a named `.mtl` library,
      `float(k)` of a token, and the listing of a set difference of
      vertices. */
  datatype Env = Env(library: string -> seq<seq<string>>, toReal: string -> Option<real>,
                     difference: (seq<Vertex>, seq<Vertex>) -> seq<Vertex>)

  /** A parse result paired with the unchanged cursor. */
  function WithCursor(r: Result<Store, string>, cur: Cursor): Result<(Store, Cursor), string> {
    match r
    case Ok(st) => Ok((st, cur))
    case Err(m) => Err(m)
  }

  /** One line of `__import_obj`, dispatched on its first token; a blank
      line and an unknown keyword change nothing. */
  function Step(st: Store, cur: Cursor, e: seq<string>, env: Env): Result<(Store, Cursor), string>
  {
    if e == [] then Ok((st, cur))
    else if e[0] == "v" then
      match Floats(e[1..], env.toReal)
      case None => Err(ValueError)
      case Some(v) => Ok((st.(vertices := st.vertices + [v]), cur))
    else if e[0] == "o" then
      if |e| < 2 then Err(IndexError) else Ok((st, cur.(objectName := Some(e[1]))))
    else if e[0] == "g" then
      Ok((st, if |e| > 1 then cur.(groupName := e[1]) else cur))
    else if e[0] == "p" then
      if |e| < 2 then Err(IndexError) else WithCursor(CreatePoint(st, e[1], cur.color, ObjectName(st, cur)), cur)
    else if e[0] == "l" then
      WithCursor(CreateLineOrWireframe(st, e[1..], cur.color, ObjectName(st, cur)), cur)
    else if e[0] == "mtllib" then
      if |e| < 2 then Err(IndexError)
      else
        match ParseMtl(st.materials, None, env.library(e[1]), env.toReal)
        case Err(m) => Err(m)
        case Ok(mt) => Ok((st.(materials := mt), cur))
    else if e[0] == "usemtl" then
      if |e| < 2 then Err(IndexError)
      else if e[1] !in st.materials then Err(KeyError)
      else Ok((st, cur.(color := st.materials[e[1]])))
    else if e[0] == "f" then
      WithCursor(AddFace(st, e[1..], cur.color, ObjectName(st, cur), env.difference), cur)
    else Ok((st, cur))
  }

  /** `__import_obj` from the given line on; the first exception ends it. */
  function Import(st: Store, cur: Cursor, lines: seq<seq<string>>, env: Env): Result<Store, string>
    decreases |lines|
  {
    if lines == [] then Ok(st)
    else
      match Step(st, cur, lines[0], env)
      case Err(m) => Err(m)
      case Ok(next) => Import(next.0, next.1, lines[1..], env)
  }

  /** Every line keeps the names and the element keys in step. */
  lemma StepConsistent(st: Store, cur: Cursor, e: seq<string>, env: Env)
    requires Consistent(st) && Step(st, cur, e, env).Ok?
    ensures Consistent(Step(st, cur, e, env).value.0)
  {
  }

  lemma {:induction false} ImportConsistent(st: Store, cur: Cursor, lines: seq<seq<string>>,
                                            env: Env)
    requires Consistent(st) && Import(st, cur, lines, env).Ok?
    ensures Consistent(Import(st, cur, lines, env).value)
    decreases |lines|
  {
    if lines != [] {
      StepConsistent(st, cur, lines[0], env);
      var next := Step(st, cur, lines[0], env).value;
      ImportConsistent(next.0, next.1, lines[1..], env);
    }
  }

  /** Vertex lines only add vertices, in order, and names nothing. */
  lemma {:induction false} ImportVertices(st: Store, cur: Cursor, vs: seq<seq<real>>, env: Env, ks: seq<seq<string>>)
    requires |ks| == |vs| && forall i :: 0 <= i < |ks| ==> |ks[i]| > 0 && ks[i][0] == "v" && Floats(ks[i][1..], env.toReal) == Some(vs[i])
    ensures Import(st, cur, ks, env) == Ok(st.(vertices := st.vertices + vs))
    decreases |ks|
  {
    if ks != [] {
      var st' := st.(vertices := st.vertices + [vs[0]]);
      assert Step(st, cur, ks[0], env) == Ok((st', cur));
      ImportVertices(st', cur, vs[1..], env, ks[1..]);
      assert st.vertices + [vs[0]] + vs[1..] == st.vertices + vs;
      assert st'.(vertices := st'.vertices + vs[1..]) == st.(vertices := st.vertices + vs);
    } else {
      assert st.vertices + vs == st.vertices;
    }
  }

  // ---------------------------------------------------------------------
  // The parser object
  // ---------------------------------------------------------------------

  /** `OBJParser`: its vertex list, element dict (with key order) and
      material table.  The source's constructor opens a file and imports
      it; here `constructor` and `ImportObj` are those two steps. */
  class ObjParser {
    var vertices: seq<Vertex>
    var elements: map<string, Element>
    var names: seq<string>
    var materials: map<string, string>

    function State(): Store
      reads this
    {
      Store(vertices, elements, names, materials)
    }

    constructor()
      ensures State() == EmptyStore
    {
      vertices, elements, names, materials := [], map[], [], map[];
    }

    /** `objects[name] = e`. */
    method SetElement(name: string, e: Element)
      modifies this
      ensures State() == Put(old(State()), name, e)
    {
      if name !in elements {
        names := names + [name];
      }
      elements := elements[name := e];
    }

    method CreateVertex(v: Vertex)
      modifies this
      ensures State() == old(State()).(vertices := old(vertices) + [v])
    {
      vertices := vertices + [v];
    }

    method CreatePointHere(k: string, color: string, name: string) returns (ok: bool)
      modifies this
      ensures ok <==> CreatePoint(old(State()), k, color, name).Ok?
      ensures ok ==> State() == CreatePoint(old(State()), k, color, name).value
    {
      var i := PointIndex(k);
      if i.None? {
        return false;
      }
      var v := PyIndex(vertices, i.value);
      if v.None? {
        return false;
      }
      SetElement(name, Element(PointKind, color, [v.value], []));
      ok := true;
    }

    method CreateLineOrWireframeHere(ks: seq<string>, color: string, name: string) returns (ok: bool)
      modifies this
      ensures ok <==> CreateLineOrWireframe(old(State()), ks, color, name).Ok?
      ensures ok ==> State() == CreateLineOrWireframe(old(State()), ks, color, name).value
    {
      var idx := LineIndices(ks);
      if idx.None? {
        return false;
      }
      var vs := Resolve(vertices, idx.value);
      if vs.None? {
        return false;
      }
      var objVertices := vs.value;
      var kind := if |objVertices| == 2 then LineKind else WireframeKind;
      if kind == WireframeKind {
        if objVertices == [] {
          return false;
        }
        objVertices := objVertices[..|objVertices| - 1];
      }
      SetElement(name, Element(kind, color, objVertices, []));
      ok := true;
    }

    method AddFaceToCurrentGroup(ks: seq<string>, color: string, name: string,
                                 difference: (seq<Vertex>, seq<Vertex>) -> seq<Vertex>) returns (ok: bool)
      modifies this
      ensures ok <==> AddFace(old(State()), ks, color, name, difference).Ok?
      ensures ok ==> State() == AddFace(old(State()), ks, color, name, difference).value
    {
      var idx := LineIndices(ks);
      if idx.None? {
        return false;
      }
      var vs := Resolve(vertices, idx.value);
      if vs.None? {
        return false;
      }
      var face := vs.value;
      if name in elements {
        var e := elements[name];
        if e.kind != FacedKind {
          return false;
        }
        var coords := e.coordinates + difference(face, e.coordinates);
        if face == [] || !AllIn(face, coords) {
          return false;
        }
        SetElement(name, e.(coordinates := coords, edges := e.edges + EdgeList(coords, face)));
        return true;
      }
      if face == [] {
        return false;
      }
      SetElement(name, Element(FacedKind, color, face, EdgeList(face, face)));
      ok := true;
    }

    /** `__parse_mtl` over the lines of the library file. */
    method ParseMtlLines(lines: seq<seq<string>>, toReal: string -> Option<real>) returns (ok: bool)
      modifies this
      ensures ok <==> ParseMtl(old(materials), None, lines, toReal).Ok?
      ensures ok ==> State() == old(State()).(materials := ParseMtl(old(materials), None, lines, toReal).value)
    {
      var current: Option<string> := None;
      var i := 0;
      while i < |lines|
        invariant 0 <= i <= |lines|
        invariant ParseMtl(old(materials), None, lines, toReal) == ParseMtl(materials, current, lines[i..], toReal)
        invariant State() == old(State()).(materials := materials)
      {
        var e := lines[i];
        assert lines[i..][1..] == lines[i + 1..];
        if e != [] {
          if e[0] == "newmtl" {
            if |e| < 2 {
              return false;
            }
            current := Some(e[1]);
          } else if e[0] == "Kd" {
            var rgb := Floats(e[1..], toReal);
            if rgb.None? {
              return false;
            }
            var h := HexFromRgb(rgb.value);
            if h.None? || current.None? {
              return false;
            }
            materials := materials[current.value := h.value];
          }
        }
        i := i + 1;
      }
      ok := true;
    }

    /** One line of the import loop; the result is the new cursor. */
    method ReadLine(cur: Cursor, e: seq<string>, env: Env) returns (r: Option<Cursor>)
      modifies this
      ensures r.Some? <==> Step(old(State()), cur, e, env).Ok?
      ensures r.Some? ==> (State(), r.value) == Step(old(State()), cur, e, env).value
    {
      if e == [] {
        return Some(cur);
      }
      var ok := true;
      var next := cur;
      if e[0] == "v" {
        var v := Floats(e[1..], env.toReal);
        if v.None? {
          return None;
        }
        CreateVertex(v.value);
      } else if e[0] == "o" {
        if |e| < 2 {
          return None;
        }
        next := cur.(objectName := Some(e[1]));
      } else if e[0] == "g" {
        if |e| > 1 {
          next := cur.(groupName := e[1]);
        }
      } else if e[0] == "p" {
        if |e| < 2 {
          return None;
        }
        ok := CreatePointHere(e[1], cur.color, ObjectName(State(), cur));
      } else if e[0] == "l" {
        ok := CreateLineOrWireframeHere(e[1..], cur.color, ObjectName(State(), cur));
      } else if e[0] == "mtllib" {
        if |e| < 2 {
          return None;
        }
        ok := ParseMtlLines(env.library(e[1]), env.toReal);
      } else if e[0] == "usemtl" {
        if |e| < 2 || e[1] !in materials {
          return None;
        }
        next := cur.(color := materials[e[1]]);
      } else if e[0] == "f" {
        ok := AddFaceToCurrentGroup(e[1..], cur.color, ObjectName(State(), cur), env.difference);
      }
      r := if ok then Some(next) else None;
    }

    /** `__import_obj` over the given lines: None, or the exception that
      ended the import. */
    method ImportObj(lines: seq<seq<string>>, env: Env) returns (error: bool)
      modifies this
      ensures !error <==> Import(old(State()), StartCursor, lines, env).Ok?
      ensures !error ==> State() == Import(old(State()), StartCursor, lines, env).value
    {
      var cur := StartCursor;
      var i := 0;
      while i < |lines|
        invariant 0 <= i <= |lines|
        invariant Import(old(State()), StartCursor, lines, env)
               == Import(State(), cur, lines[i..], env)
      {
        assert lines[i..][1..] == lines[i + 1..];
        var r := ReadLine(cur, lines[i], env);
        if r.None? {
          return true;
        }
        cur := r.value;
        i := i + 1;
      }
      error := false;
    }
  }

  // ---------------------------------------------------------------------
  // Export
  // ---------------------------------------------------------------------

  /** What the exporter reads from an object. */
  datatype ExportObject = ExportObject(name: string, coordinates: seq<Vec3>, color: string, kind: ObjectType,
                                       edges: seq<(int, int)>, edgeOrderMatters: bool)

  /** The exporter's vertex dict: the number of each vertex, and the
      vertices in insertion order (the order of the `v` lines). */
  datatype Numbering = Numbering(number: map<Vec3, nat>, order: seq<Vec3>)

  /** Vertex k of the order has number k + 1, and the dict holds exactly
      the ordered vertices. */
  ghost predicate Numbered(nb: Numbering) {
    NoDuplicates(nb.order) &&
    (forall v :: v in nb.number <==> v in nb.order) &&
    (forall k :: 0 <= k < |nb.order| ==> nb.order[k] in nb.number && nb.number[nb.order[k]] == k + 1)
  }

  /** One vertex of `__add_vertices`: a vertex not yet numbered gets the
      next number. */
  function AddOne(nb: Numbering, v: Vec3): Numbering {
    if v in nb.number then nb else Numbering(nb.number[v := |nb.number| + 1], nb.order + [v])
  }

  /** `__add_vertices`. */
  function AddedVertices(nb: Numbering, vs: seq<Vec3>): Numbering {
    if vs == [] then nb else AddOne(AddedVertices(nb, vs[..|vs| - 1]), vs[|vs| - 1])
  }

  /** Numbering a vertex keeps the numbering consistent and the old
      numbers, and appends the vertex to the order when it is new. */
  lemma AddOneSpec(nb: Numbering, v: Vec3)
    requires Numbered(nb)
    ensures var r := AddOne(nb, v);
            && Numbered(r) && v in r.number
            && (forall u :: u in nb.number ==> u in r.number && r.number[u] == nb.number[u])
            && r.order == (if v in nb.number then nb.order else nb.order + [v])
  {
    NumberedSize(nb);
  }

  /** Numbering a vertex keeps the old order as a prefix. */
  lemma AddOnePrefix(nb: Numbering, v: Vec3)
    ensures var r := AddOne(nb, v);
            |nb.order| <= |r.order| && r.order[..|nb.order|] == nb.order
  {
    var r := AddOne(nb, v);
    if v !in nb.number {
      assert r.order[..|nb.order|] == nb.order;
    }
  }

  /** The numbering stays consistent, old numbers are kept, and the old
      order is a prefix of the new. */
  lemma {:induction false} AddedVerticesSpec(nb: Numbering, vs: seq<Vec3>)
    requires Numbered(nb)
    ensures var r := AddedVertices(nb, vs);
            && Numbered(r)
            && |nb.order| <= |r.order| && r.order[..|nb.order|] == nb.order
            && (forall v :: v in nb.number ==> v in r.number && r.number[v] == nb.number[v])
  {
    if vs != [] {
      var n := |vs| - 1;
      AddedVerticesSpec(nb, vs[..n]);
      var before := AddedVertices(nb, vs[..n]);
      AddOneSpec(before, vs[n]);
      AddOnePrefix(before, vs[n]);
      AddedVerticesLast(nb, vs);
      KeptAcross(nb, before, AddOne(before, vs[n]));
    }
  }

  lemma AddedVerticesLast(nb: Numbering, vs: seq<Vec3>)
    requires vs != []
    ensures AddedVertices(nb, vs) == AddOne(AddedVertices(nb, vs[..|vs| - 1]), vs[|vs| - 1])
  {
  }

  /** Keeping a prefix and the old numbers is transitive. */
  lemma KeptAcross(a: Numbering, b: Numbering, c: Numbering)
    requires |a.order| <= |b.order| && b.order[..|a.order|] == a.order
    requires |b.order| <= |c.order| && c.order[..|b.order|] == b.order
    requires forall v :: v in a.number ==> v in b.number && b.number[v] == a.number[v]
    requires forall v :: v in b.number ==> v in c.number && c.number[v] == b.number[v]
    ensures |a.order| <= |c.order| && c.order[..|a.order|] == a.order
    ensures forall v :: v in a.number ==> v in c.number && c.number[v] == a.number[v]
  {
    PrefixOfPrefix(a.order, b.order, c.order);
  }

  lemma PrefixOfPrefix<T>(a: seq<T>, b: seq<T>, c: seq<T>)
    requires |a| <= |b| <= |c| && b[..|a|] == a && c[..|b|] == b
    ensures c[..|a|] == a
  {
    assert c[..|a|] == c[..|b|][..|a|];
  }

  /** The vertices appended to the order are new ones from the list. */
  lemma {:induction false} AddedFromList(nb: Numbering, vs: seq<Vec3>)
    ensures var r := AddedVertices(nb, vs);
            && |nb.order| <= |r.order| && r.order[..|nb.order|] == nb.order
            && forall j :: |nb.order| <= j < |r.order| ==> r.order[j] in vs && r.order[j] !in nb.number
  {
    if vs != [] {
      var n := |vs| - 1;
      AddedFromList(nb, vs[..n]);
      AddedCovers(nb, vs[..n]);
      var before := AddedVertices(nb, vs[..n]);
      var r := AddedVertices(nb, vs);
      assert vs == vs[..n] + [vs[n]];
      if vs[n] !in before.number {
        assert r.order == before.order + [vs[n]];
        assert r.order[..|nb.order|] == before.order[..|nb.order|];
        forall j | |nb.order| <= j < |r.order| ensures r.order[j] in vs && r.order[j] !in nb.number {
          if j < |before.order| {
            assert r.order[j] == before.order[j];
          }
        }
      }
    }
  }

  /** Every added vertex is numbered, and so is every vertex numbered before. */
  lemma {:induction false} AddedCovers(nb: Numbering, vs: seq<Vec3>)
    ensures forall v :: v in vs ==> v in AddedVertices(nb, vs).number
    ensures forall v :: v in nb.number ==> v in AddedVertices(nb, vs).number
  {
    if vs != [] {
      var n := |vs| - 1;
      AddedCovers(nb, vs[..n]);
      assert vs == vs[..n] + [vs[n]];
    }
  }

  /** A consistent numbering numbers as many vertices as it orders. */
  lemma NumberedSize(nb: Numbering)
    requires Numbered(nb)
    ensures |nb.number| == |nb.order|
  {
    var keys := nb.number.Keys;
    var els := set k | 0 <= k < |nb.order| :: nb.order[k];
    assert keys == els;
    DistinctCount(nb.order);
  }

  lemma {:induction false} DistinctCount<T>(s: seq<T>)
    requires NoDuplicates(s)
    ensures |set k | 0 <= k < |s| :: s[k]| == |s|
  {
    if s != [] {
      var n := |s| - 1;
      DistinctCount(s[..n]);
      var a := set k | 0 <= k < n :: s[..n][k];
      var b := set k | 0 <= k < |s| :: s[k];
      assert b == a + {s[n]};
      assert s[n] !in a;
    }
  }

  /** The numbers of the given vertices, as text. */
  function VertexNumbers(number: map<Vec3, nat>, cs: seq<Vec3>): (r: seq<string>)
    requires forall c :: c in cs ==> c in number
    ensures |r| == |cs|
    ensures forall i :: 0 <= i < |cs| ==> r[i] == Decimal(number[cs[i]])
  {
    seq(|cs|, i requires 0 <= i < |cs| => Decimal(number[cs[i]]))
  }

  /** The `f` lines of edges grouped by three: the first edge's two
      vertices and the second edge's end, each plus one. */
  function FaceLines(edges: seq<(int, int)>): (r: seq<seq<string>>)
    requires |edges| % 3 == 0
    ensures |r| == |edges| / 3
    ensures forall j :: 0 <= j < |r| ==> |r[j]| == 4 && r[j][0] == "f"
    decreases |edges|
  {
    if edges == [] then []
    else [FaceLine(edges[0], edges[1])] + FaceLines(edges[3..])
  }

  /** One `f` line: the first edge's two vertices and the second edge's
      end, each plus one. */
  function FaceLine(first: (int, int), second: (int, int)): seq<string> {
    ["f", IntString(first.0 + 1), IntString(first.1 + 1), IntString(second.1 + 1)]
  }

  /** The step of the loop over edge triples stays on a triple boundary. */
  lemma FaceLinesAt(edges: seq<(int, int)>)
    requires |edges| % 3 == 0 && edges != []
    ensures 3 <= |edges| && (|edges| - 3) % 3 == 0
    ensures FaceLines(edges) == [FaceLine(edges[0], edges[1])] + FaceLines(edges[3..])
  {
    MultipleOfThree(|edges|);
  }

  lemma MultipleOfThree(m: nat)
    requires m % 3 == 0 && m != 0
    ensures 3 <= m && (m - 3) % 3 == 0
  {
    var q := m / 3;
    assert m == 3 * q;
    assert m - 3 == 3 * (q - 1);
  }

  lemma AppendAssoc<T>(a: seq<T>, b: seq<T>, c: seq<T>)
    ensures (a + b) + c == a + (b + c)
  {
  }

  /** Whether a wireframe is written as `f` lines. */
  predicate AsFaces(o: ExportObject) {
    o.kind == Wireframe && o.edgeOrderMatters && |o.edges| % 3 == 0
  }

  /** The lines one object writes once its vertices are numbered and its
      material is named: "o" and "usemtl" lines, then a `p` line of the
      first vertex, an `l` line of the first two, or for a wireframe one
      closed `l` line; a wireframe written as faces has a "g" line in
      place of its "o" line.  Other kinds write no geometry. */
  function ObjectLines(o: ExportObject, number: map<Vec3, nat>, name: string): Result<seq<seq<string>>, string>
    requires forall c :: c in o.coordinates ==> c in number
  {
    var cs := o.coordinates;
    var head := [["o", o.name], ["usemtl", name]];
    match o.kind
    case Point =>
      if |cs| < 1 then Err(IndexError) else Ok(head + [["p", Decimal(number[cs[0]])]])
    case Line =>
      if |cs| < 2 then Err(IndexError) else Ok(head + [["l", Decimal(number[cs[0]]), Decimal(number[cs[1]])]])
    case Wireframe =>
      if !AsFaces(o) then
        if cs == [] then Err(IndexError) else Ok(head + [["l"] + VertexNumbers(number, cs) + [Decimal(number[cs[0]])]])
      else Ok([["g", o.name], ["usemtl", name]] + FaceLines(o.edges))
    case _ => Ok(head)
  }

  /** An object's block starts with its name line and its material line,
      and carries the geometry its kind asks for: one `p` line, one
      two-vertex `l` line, one closed `l` line through every vertex, or
      one `f` line per three edges. */
  lemma ObjectLinesShape(o: ExportObject, number: map<Vec3, nat>, name: string)
    requires (forall c :: c in o.coordinates ==> c in number) && ObjectLines(o, number, name).Ok?
    ensures var ls := ObjectLines(o, number, name).value;
            && |ls| >= 2 && ls[0] == [if AsFaces(o) then "g" else "o", o.name] && ls[1] == ["usemtl", name]
            && (o.kind == Point ==> |ls| == 3 && |ls[2]| == 2 && ls[2][0] == "p")
            && (o.kind == Line ==> |ls| == 3 && |ls[2]| == 3 && ls[2][0] == "l")
            && (o.kind == Wireframe && !AsFaces(o) ==>
                  |ls| == 3 && |ls[2]| == |o.coordinates| + 2 && ls[2][0] == "l" && ls[2][|ls[2]| - 1] == ls[2][1])
            && (AsFaces(o) ==> |ls| == 2 + |o.edges| / 3 && forall j :: 2 <= j < |ls| ==> ls[j][0] == "f")
            && (o.kind !in {Point, Line, Wireframe} ==> |ls| == 2)
  {
  }

  /** The exporter's loop state: the vertex numbering, the material names
      by colour key with their order, the next material number and the
      lines written so far. */
  datatype ExportState = ExportState(numbering: Numbering, colors: map<(int, int, int), string>,
                                     colorOrder: seq<(int, int, int)>, kd: nat, lines: seq<seq<string>>)

  /** The material name of a colour key, and the table after it: a new key
      gets the next color<k> name. */
  function Material(g: ExportState, key: (int, int, int)): (string, ExportState) {
    if key in g.colors then (g.colors[key], g)
    else (ColorName(g.kd), g.(colors := g.colors[key := ColorName(g.kd)], colorOrder := g.colorOrder + [key], kd := g.kd + 1))
  }

  /** Material k is named color<k>, each colour key once. */
  ghost predicate MaterialsNamed(g: ExportState) {
    NoDuplicates(g.colorOrder) && g.kd == |g.colorOrder| &&
    (forall k :: k in g.colors <==> k in g.colorOrder) &&
    (forall i :: 0 <= i < |g.colorOrder| ==> g.colorOrder[i] in g.colors && g.colors[g.colorOrder[i]] == ColorName(i))
  }

  /** Naming a colour keeps the table named in order, gives the key its
      table entry, and leaves the rest of the state alone. */
  lemma MaterialSpec(g: ExportState, key: (int, int, int))
    requires MaterialsNamed(g)
    ensures var (name, g1) := Material(g, key);
            && MaterialsNamed(g1) && key in g1.colors && g1.colors[key] == name
            && g1.numbering == g.numbering && g1.lines == g.lines
  {
    var g1 := Material(g, key).1;
    if key !in g.colors {
      forall i | 0 <= i < |g1.colorOrder| ensures g1.colorOrder[i] in g1.colors && g1.colors[g1.colorOrder[i]] == ColorName(i) {
        if i < |g.colorOrder| {
          assert g1.colorOrder[i] == g.colorOrder[i];
        }
      }
    }
  }

  /** One object of `__generate_obj`: its vertices are numbered, its colour
      named, and its lines written. */
  function ExportStep(g: ExportState, o: ExportObject): Result<ExportState, string> {
    var nb := AddedVertices(g.numbering, o.coordinates);
    AddedCovers(g.numbering, o.coordinates);
    match RgbFromHex(o.color)
    case None => Err(ValueError)
    case Some(key) =>
      var m := Material(g, key);
      match ObjectLines(o, nb.number, m.0)
      case Err(e) => Err(e)
      case Ok(ls) => Ok(m.1.(numbering := nb, lines := g.lines + ls))
  }

  ghost predicate ExportValid(g: ExportState) {
    Numbered(g.numbering) && MaterialsNamed(g)
  }

  /** Every object keeps the numbering consistent and the materials named
      color0, color1, ... in order of first use, and only appends lines. */
  lemma ExportStepValid(g: ExportState, o: ExportObject)
    requires ExportValid(g) && ExportStep(g, o).Ok?
    ensures ExportValid(ExportStep(g, o).value)
    ensures ExportStep(g, o).value.numbering == AddedVertices(g.numbering, o.coordinates)
    ensures |g.lines| <= |ExportStep(g, o).value.lines| && ExportStep(g, o).value.lines[..|g.lines|] == g.lines
  {
    AddedVerticesSpec(g.numbering, o.coordinates);
    MaterialSpec(g, RgbFromHex(o.color).value);
  }

  /** The objects from the given one on. */
  function ExportFrom(g: ExportState, objs: seq<ExportObject>): Result<ExportState, string>
    decreases |objs|
  {
    if objs == [] then Ok(g)
    else
      match ExportStep(g, objs[0])
      case Err(m) => Err(m)
      case Ok(g') => ExportFrom(g', objs[1..])
  }

  lemma {:induction false} ExportFromValid(g: ExportState, objs: seq<ExportObject>)
    requires ExportValid(g) && ExportFrom(g, objs).Ok?
    ensures ExportValid(ExportFrom(g, objs).value)
    ensures |g.lines| <= |ExportFrom(g, objs).value.lines| && ExportFrom(g, objs).value.lines[..|g.lines|] == g.lines
    decreases |objs|
  {
    if objs != [] {
      ExportStepValid(g, objs[0]);
      var g' := ExportStep(g, objs[0]).value;
      ExportFromValid(g', objs[1..]);
      ExportFromFirst(g, objs);
      PrefixOfPrefix(g.lines, g'.lines, ExportFrom(g', objs[1..]).value.lines);
    }
  }

  lemma ExportFromFirst(g: ExportState, objs: seq<ExportObject>)
    requires objs != [] && ExportStep(g, objs[0]).Ok?
    ensures ExportFrom(g, objs) == ExportFrom(ExportStep(g, objs[0]).value, objs[1..])
  {
  }

  const StartExport := ExportState(Numbering(map[], []), map[], [], 0, [])

  /** What the export writes: the `v` lines in numbering order, whether an
      `mtllib` line is written (only when there are object lines), the
      object lines, and the materials as (colour key, name) in order. */
  datatype ObjExport = ObjExport(vertices: seq<Vec3>, library: bool, lines: seq<seq<string>>,
                                 materials: seq<((int, int, int), string)>)

  function Written(g: ExportState): ObjExport
    requires ExportValid(g)
  {
    ObjExport(g.numbering.order, |g.lines| > 0, g.lines,
              seq(|g.colorOrder|, i requires 0 <= i < |g.colorOrder| => (g.colorOrder[i], g.colors[g.colorOrder[i]])))
  }

  /** `__generate_obj`: the whole export, or the exception that ends it. */
  function Generate(objs: seq<ExportObject>): Result<ObjExport, string> {
    match ExportFrom(StartExport, objs)
    case Err(m) => Err(m)
    case Ok(g) => ExportFromValid(StartExport, objs); Ok(Written(g))
  }

  /** A successful export writes each vertex once, numbered by its place,
      and names its materials color0, color1, ... each key and each name
      once. */
  lemma GenerateValid(objs: seq<ExportObject>)
    requires Generate(objs).Ok?
    ensures var x := Generate(objs).value;
            && NoDuplicates(x.vertices)
            && (forall i :: 0 <= i < |x.materials| ==> x.materials[i].1 == ColorName(i))
            && (forall i, j :: 0 <= i < j < |x.materials| ==>
                  x.materials[i].0 != x.materials[j].0 && x.materials[i].1 != x.materials[j].1)
  {
    ExportFromValid(StartExport, objs);
    var g := ExportFrom(StartExport, objs).value;
    forall i, j | 0 <= i < j < |g.colorOrder| ensures ColorName(i) != ColorName(j) {
      ColorNamesDistinct(i, j);
    }
  }

  lemma WireframeRoundTrip(nb: Numbering, cs: seq<Vec3>, st: Store, color: string, name: string)
    requires Numbered(nb) && |cs| >= 2 && forall c :: c in cs ==> c in nb.number
    requires st.vertices == seq(|nb.order|, k requires 0 <= k < |nb.order| => AsSeq(nb.order[k]))
    ensures CreateLineOrWireframe(st, VertexNumbers(nb.number, cs) + [Decimal(nb.number[cs[0]])], color, name)
         == Ok(Put(st, name, Element(WireframeKind, color, seq(|cs|, i requires 0 <= i < |cs| => AsSeq(cs[i])), [])))
  {
    var ks := VertexNumbers(nb.number, cs) + [Decimal(nb.number[cs[0]])];
    var want := seq(|cs|, i requires 0 <= i < |cs| => AsSeq(cs[i]));
    var ns := seq(|ks|, i requires 0 <= i < |ks| => nb.number[if i < |cs| then cs[i] else cs[0]]);
    var idx := seq(|ns|, i requires 0 <= i < |ns| => ns[i] as int - 1);
    assert LineIndices(ks) == Some(idx) by {
      var nums := VertexNumbers(nb.number, cs);
      assert ks == seq(|ns|, i requires 0 <= i < |ns| => Decimal(ns[i])) by {
        forall i | 0 <= i < |ks| ensures ks[i] == Decimal(ns[i]) {
          if i < |cs| {
            assert ks[i] == nums[i];
          }
        }
      }
      LineIndicesOf(ns);
    }
    var vs := seq(|ks|, i requires 0 <= i < |ks| => AsSeq(if i < |cs| then cs[i] else cs[0]));
    assert Resolve(st.vertices, idx) == Some(vs) by {
      ResolveOf(st.vertices, idx, vs, nb, cs);
    }
    assert vs[..|vs| - 1] == want;
  }

  /** Decimal tokens name their numbers minus one. */
  lemma LineIndicesOf(ns: seq<nat>)
    ensures LineIndices(seq(|ns|, i requires 0 <= i < |ns| => Decimal(ns[i])))
         == Some(seq(|ns|, i requires 0 <= i < |ns| => ns[i] as int - 1))
  {
    var ks := seq(|ns|, i requires 0 <= i < |ns| => Decimal(ns[i]));
    var idx := seq(|ns|, i requires 0 <= i < |ns| => ns[i] as int - 1);
    forall i | 0 <= i < |ks| ensures LineIndex(ks[i]) == Some(idx[i]) {
      LineIndexDecimal(ns[i]);
    }
    LineIndicesAll(ks, idx);
  }

  lemma LineIndexDecimal(m: nat)
    ensures LineIndex(Decimal(m)) == Some(m - 1)
  {
    ParseDecimal(m);
  }

  lemma {:induction false} LineIndicesAll(ks: seq<string>, idx: seq<int>)
    requires |ks| == |idx| && forall i :: 0 <= i < |ks| ==> LineIndex(ks[i]) == Some(idx[i])
    ensures LineIndices(ks) == Some(idx)
  {
    if ks != [] {
      var n := |ks| - 1;
      LineIndicesAll(ks[..n], idx[..n]);
      assert idx == idx[..n] + [idx[n]];
    }
  }

  /** The numbers minus one pick the vertices from the `v` lines. */
  lemma ResolveOf(vertices: seq<Vertex>, idx: seq<int>, vs: seq<Vertex>, nb: Numbering, cs: seq<Vec3>)
    requires Numbered(nb) && |cs| >= 1 && forall c :: c in cs ==> c in nb.number
    requires vertices == seq(|nb.order|, k requires 0 <= k < |nb.order| => AsSeq(nb.order[k]))
    requires |idx| == |cs| + 1 && |vs| == |idx|
    requires forall i :: 0 <= i < |idx| ==> idx[i] == nb.number[if i < |cs| then cs[i] else cs[0]] - 1
    requires forall i :: 0 <= i < |vs| ==> vs[i] == AsSeq(if i < |cs| then cs[i] else cs[0])
    ensures Resolve(vertices, idx) == Some(vs)
  {
    forall i | 0 <= i < |idx| ensures PyIndex(vertices, idx[i]) == Some(vs[i]) {
      var c := if i < |cs| then cs[i] else cs[0];
      assert c in nb.order;
      var k :| 0 <= k < |nb.order| && nb.order[k] == c;
      assert idx[i] == k;
    }
    ResolveAll(vertices, idx, vs);
  }

  lemma {:induction false} ResolveAll(vertices: seq<Vertex>, idx: seq<int>, vs: seq<Vertex>)
    requires |idx| == |vs| && forall i :: 0 <= i < |idx| ==> PyIndex(vertices, idx[i]) == Some(vs[i])
    ensures Resolve(vertices, idx) == Some(vs)
  {
    if idx != [] {
      var n := |idx| - 1;
      ResolveAll(vertices, idx[..n], vs[..n]);
      assert vs == vs[..n] + [vs[n]];
    }
  }

  // ---------------------------------------------------------------------
  // The generator object
  // ---------------------------------------------------------------------

  /** An object's lines after the lines already written. */
  function Appended(lines: seq<seq<string>>, r: Result<seq<seq<string>>, string>): Result<seq<seq<string>>, string> {
    match r
    case Ok(ls) => Ok(lines + ls)
    case Err(e) => Err(e)
  }

  /** `OBJGenerator`: its vertex dict.  The source's constructor asks for a
      file name and exports; here `constructor` and `GenerateObj` are those
      two steps, and writing the files is left to the caller. */
  class ObjGenerator {
    var number: map<Vec3, nat>
    var order: seq<Vec3>

    function Numbers(): Numbering
      reads this
    {
      Numbering(number, order)
    }

    constructor()
      ensures Numbers() == Numbering(map[], [])
    {
      number, order := map[], [];
    }

    /** `__add_vertices`. */
    method AddVertices(vs: seq<Vec3>)
      modifies this
      ensures Numbers() == AddedVertices(old(Numbers()), vs)
    {
      var i := 0;
      while i < |vs|
        invariant 0 <= i <= |vs|
        invariant Numbers() == AddedVertices(old(Numbers()), vs[..i])
      {
        assert vs[..i + 1][..i] == vs[..i];
        if vs[i] !in number {
          number := number[vs[i] := |number| + 1];
          order := order + [vs[i]];
        }
        i := i + 1;
      }
      assert vs[..i] == vs;
    }

    /** `__get_vertices_indexes`: the numbers of the coordinates, then the
        first one again. */
    method VerticesIndexes(cs: seq<Vec3>) returns (r: seq<string>)
      requires |cs| > 0 && forall c :: c in cs ==> c in number
      ensures r == VertexNumbers(number, cs) + [Decimal(number[cs[0]])]
      ensures |r| == |cs| + 1 && r[|cs|] == r[0]
    {
      r := [];
      var i := 0;
      while i < |cs|
        invariant 0 <= i <= |cs|
        invariant r == VertexNumbers(number, cs[..i])
      {
        assert cs[..i + 1][..i] == cs[..i];
        r := r + [Decimal(number[cs[i]])];
        i := i + 1;
      }
      assert cs[..i] == cs;
      r := r + [r[0]];
    }

    /** The loop over edge triples. */
    static method FaceLinesOf(edges: seq<(int, int)>) returns (r: seq<seq<string>>)
      requires |edges| % 3 == 0
      ensures r == FaceLines(edges)
    {
      r := [];
      var i := 0;
      while i < |edges|
        invariant 0 <= i <= |edges| && (|edges| - i) % 3 == 0
        invariant r + FaceLines(edges[i..]) == FaceLines(edges)
      {
        FaceLinesAt(edges[i..]);
        assert edges[i..][3..] == edges[i + 3..];
        var line := FaceLine(edges[i], edges[i + 1]);
        AppendAssoc(r, [line], FaceLines(edges[i + 3..]));
        r := r + [line];
        i := i + 3;
      }
    }

    /** The body of the export loop for one object, after its colour is
        named: its lines appended to those already written. */
    method WriteObject(lines: seq<seq<string>>, o: ExportObject, name: string) returns (r: Result<seq<seq<string>>, string>)
      requires forall c :: c in o.coordinates ==> c in number
      ensures r == Appended(lines, ObjectLines(o, number, name))
    {
      var ls := lines + [["o", o.name], ["usemtl", name]];
      var cs := o.coordinates;
      match o.kind {
        case Point =>
          if |cs| < 1 {
            return Err(IndexError);
          }
          ls := ls + [["p", Decimal(number[cs[0]])]];
          assert ls == lines + ([["o", o.name], ["usemtl", name]] + [["p", Decimal(number[cs[0]])]]);
        case Line =>
          if |cs| < 2 {
            return Err(IndexError);
          }
          ls := ls + [["l", Decimal(number[cs[0]]), Decimal(number[cs[1]])]];
          assert ls == lines + ([["o", o.name], ["usemtl", name]] + [["l", Decimal(number[cs[0]]), Decimal(number[cs[1]])]]);
        case Wireframe =>
          if !o.edgeOrderMatters || |o.edges| % 3 != 0 {
            if cs == [] {
              return Err(IndexError);
            }
            var indexes := VerticesIndexes(cs);
            assert ["l"] + indexes == ["l"] + VertexNumbers(number, cs) + [Decimal(number[cs[0]])];
            ls := ls + [["l"] + indexes];
            assert ls == lines + ([["o", o.name], ["usemtl", name]] + [["l"] + indexes]);
          } else {
            ls := ls[|ls| - 2 := ["g", o.name]];
            assert ls == lines + [["g", o.name], ["usemtl", name]];
            var faces := FaceLinesOf(o.edges);
            ls := ls + faces;
            assert ls == lines + ([["g", o.name], ["usemtl", name]] + faces);
          }
        case _ =>
      }
      r := Ok(ls);
    }

    /** `__generate_obj` over the objects. */
    method GenerateObj(objs: seq<ExportObject>) returns (r: Result<ObjExport, string>)
      requires Numbers() == Numbering(map[], [])
      modifies this
      ensures r == Generate(objs)
    {
      var g := StartExport;
      var i := 0;
      while i < |objs|
        invariant 0 <= i <= |objs|
        invariant ExportFrom(StartExport, objs) == ExportFrom(g, objs[i..])
        invariant Numbers() == g.numbering
      {
        assert objs[i..][1..] == objs[i + 1..];
        var o := objs[i];
        AddVertices(o.coordinates);
        AddedCovers(g.numbering, o.coordinates);
        var key := RgbFromHex(o.color);
        if key.None? {
          return Err(ValueError);
        }
        var m := Material(g, key.value);
        var written := WriteObject(g.lines, o, m.0);
        if written.Err? {
          return Err(written.error);
        }
        g := m.1.(numbering := Numbers(), lines := written.value);
        i := i + 1;
      }
      ExportFromValid(StartExport, objs);
      r := Ok(Written(g));
    }
  }
}
