/** Persistence of a calibration: `save` writes every parameter under a named
    key of a key/value document and `load` reads each parameter back from a
    key. The document is modelled as an in-memory map; matrix contents are
    opaque values that are only stored and compared. */
module Storage {

  /** An opaque matrix: its shape and its entries, never interpreted here. */
  datatype Mat = Mat(rows: nat, cols: nat, data: seq<real>)

  /** What reading a matrix from an absent node gives: an empty matrix. */
  const EmptyMat := Mat(0, 0, [])

  datatype Size = Size(width: int, height: int)

  /** The 17 matrices of a calibration: intrinsics, distortion vectors,
      extrinsics R and T, essential and fundamental matrices, rectifying
      rotations and projections, the disparity-to-depth matrix and the four
      remap tables. */
  datatype Params = Params(
    cm1: Mat, cm2: Mat, d1: Mat, d2: Mat, r: Mat, t: Mat, e: Mat, f: Mat,
    r1: Mat, r2: Mat, p1: Mat, p2: Mat, q: Mat,
    mx1: Mat, mx2: Mat, my1: Mat, my2: Mat)

  /** The unit of persistence: the matrices and the calibrated image size. */
  datatype Calibration = Calibration(params: Params, imgSize: Size)

  /** A node of the stored document. */
  datatype Node = MatNode(mat: Mat) | IntNode(value: int)

  type Document = map<string, Node>

  const MatrixKeys: set<string> := {
    "CM1", "CM2", "D1", "D2", "R", "T", "E", "F", "R1", "R2", "P1", "P2", "Q",
    "MX1", "MX2", "MY1", "MY2"}

  const SizeKeys: set<string> := {"W", "H"}

  /** Every key save writes and load reads. */
  const Keys: set<string> := MatrixKeys + SizeKeys

  /** The reference table: which field of a calibration belongs to which key. */
  function Field(c: Calibration, key: string): Node
    requires key in Keys
  {
    var p := c.params;
    match key
    case "CM1" => MatNode(p.cm1)
    case "CM2" => MatNode(p.cm2)
    case "D1" => MatNode(p.d1)
    case "D2" => MatNode(p.d2)
    case "R" => MatNode(p.r)
    case "T" => MatNode(p.t)
    case "E" => MatNode(p.e)
    case "F" => MatNode(p.f)
    case "R1" => MatNode(p.r1)
    case "R2" => MatNode(p.r2)
    case "P1" => MatNode(p.p1)
    case "P2" => MatNode(p.p2)
    case "Q" => MatNode(p.q)
    case "W" => IntNode(c.imgSize.width)
    case "H" => IntNode(c.imgSize.height)
    case "MX1" => MatNode(p.mx1)
    case "MX2" => MatNode(p.mx2)
    case "MY1" => MatNode(p.my1)
    case _ => MatNode(p.my2)
  }

  /** `fs["k"] >> mat`: the stored matrix, or an empty one when the key is
      absent or does not hold a matrix. */
  function ReadMat(fs: Document, key: string): Mat
  {
    if key in fs && fs[key].MatNode? then fs[key].mat else EmptyMat
  }

  /** `fs["k"] >> n`: the stored number, or 0 when the key is absent or does
      not hold a number. */
  function ReadInt(fs: Document, key: string): int
  {
    if key in fs && fs[key].IntNode? then fs[key].value else 0
  }

  /** The field of the record that save writes under a key: its own, except
      that camera 1's distortion vector is written under "D2". */
  function SavedFrom(key: string): string
  {
    if key == "D2" then "D1" else key
  }

  function Save(c: Calibration): (fs: Document)
    ensures fs.Keys == Keys
  {
    var p := c.params;
    map[
      "CM1" := MatNode(p.cm1), "CM2" := MatNode(p.cm2),
      "D1" := MatNode(p.d1), "D2" := MatNode(p.d1),
      "R" := MatNode(p.r), "T" := MatNode(p.t),
      "E" := MatNode(p.e), "F" := MatNode(p.f),
      "R1" := MatNode(p.r1), "R2" := MatNode(p.r2),
      "P1" := MatNode(p.p1), "P2" := MatNode(p.p2),
      "Q" := MatNode(p.q),
      "W" := IntNode(c.imgSize.width), "H" := IntNode(c.imgSize.height),
      "MX1" := MatNode(p.mx1), "MX2" := MatNode(p.mx2),
      "MY1" := MatNode(p.my1), "MY2" := MatNode(p.my2)]
  }

  function Load(fs: Document): (r: Calibration)
    ensures forall k :: k in Keys ==> Field(r, k) == ReadAs(fs, k)
  {
    Calibration(
      Params(
        ReadMat(fs, "CM1"), ReadMat(fs, "CM2"), ReadMat(fs, "D1"), ReadMat(fs, "D2"),
        ReadMat(fs, "R"), ReadMat(fs, "T"), ReadMat(fs, "E"), ReadMat(fs, "F"),
        ReadMat(fs, "R1"), ReadMat(fs, "R2"), ReadMat(fs, "P1"), ReadMat(fs, "P2"),
        ReadMat(fs, "Q"),
        ReadMat(fs, "MX1"), ReadMat(fs, "MX2"), ReadMat(fs, "MY1"), ReadMat(fs, "MY2")),
      Size(ReadInt(fs, "W"), ReadInt(fs, "H")))
  }

  /** What load takes from the node under a key, shaped as that key's field. */
  function ReadAs(fs: Document, key: string): Node
  {
    if key in SizeKeys then IntNode(ReadInt(fs, key)) else MatNode(ReadMat(fs, key))
  }

  /** A document holding exactly the keys of the schema, each with a node of
      the kind its field has. */
  ghost predicate WellFormed(fs: Document)
  {
    && fs.Keys == Keys
    && (forall k :: k in MatrixKeys ==> fs[k].MatNode?)
    && (forall k :: k in SizeKeys ==> fs[k].IntNode?)
  }

  /** Save's wiring: under every key it writes the field `SavedFrom(key)`. */
  lemma {:induction false} SaveWritesFields(c: Calibration, key: string)
    requires key in Keys
    ensures SavedFrom(key) in Keys
    ensures Save(c)[key] == Field(c, SavedFrom(key))
  {
    var p := c.params;
    var fs := Save(c);
    match key
    case "CM1" => assert fs[key] == MatNode(p.cm1);
    case "CM2" => assert fs[key] == MatNode(p.cm2);
    case "D1" => assert fs[key] == MatNode(p.d1);
    case "D2" => assert fs[key] == MatNode(p.d1);
    case "R" => assert fs[key] == MatNode(p.r);
    case "T" => assert fs[key] == MatNode(p.t);
    case "E" => assert fs[key] == MatNode(p.e);
    case "F" => assert fs[key] == MatNode(p.f);
    case "R1" => assert fs[key] == MatNode(p.r1);
    case "R2" => assert fs[key] == MatNode(p.r2);
    case "P1" => assert fs[key] == MatNode(p.p1);
    case "P2" => assert fs[key] == MatNode(p.p2);
    case "Q" => assert fs[key] == MatNode(p.q);
    case "W" => assert fs[key] == IntNode(c.imgSize.width);
    case "H" => assert fs[key] == IntNode(c.imgSize.height);
    case "MX1" => assert fs[key] == MatNode(p.mx1);
    case "MX2" => assert fs[key] == MatNode(p.mx2);
    case "MY1" => assert fs[key] == MatNode(p.my1);
    case "MY2" => assert fs[key] == MatNode(p.my2);
  }

  /** The round trip: load(save(c)) gives back c in every field except D2,
      which comes back equal to D1. */
  lemma LoadSave(c: Calibration)
    ensures Load(Save(c)) == c.(params := c.params.(d2 := c.params.d1))
  {
    var fs := Save(c);
    var p := c.params;
    assert ReadMat(fs, "CM1") == p.cm1;
    assert ReadMat(fs, "CM2") == p.cm2;
    assert ReadMat(fs, "D1") == p.d1;
    assert ReadMat(fs, "D2") == p.d1;
    assert ReadMat(fs, "R") == p.r;
    assert ReadMat(fs, "T") == p.t;
    assert ReadMat(fs, "E") == p.e;
    assert ReadMat(fs, "F") == p.f;
    assert ReadMat(fs, "R1") == p.r1;
    assert ReadMat(fs, "R2") == p.r2;
    assert ReadMat(fs, "P1") == p.p1;
    assert ReadMat(fs, "P2") == p.p2;
    assert ReadMat(fs, "Q") == p.q;
    assert ReadMat(fs, "MX1") == p.mx1;
    assert ReadMat(fs, "MX2") == p.mx2;
    assert ReadMat(fs, "MY1") == p.my1;
    assert ReadMat(fs, "MY2") == p.my2;
    assert ReadInt(fs, "W") == c.imgSize.width && ReadInt(fs, "H") == c.imgSize.height;
  }

  /** Hence the round trip is exact precisely when the two distortion
      vectors already agree. */
  lemma LoadSaveExact(c: Calibration)
    ensures Load(Save(c)) == c <==> c.params.d2 == c.params.d1
  {
    LoadSave(c);
    if Load(Save(c)) == c {
      assert Load(Save(c)).params.d2 == c.params.d1;
    }
  }

  /** Save never looks at camera 2's distortion vector. */
  lemma SaveIgnoresD2(c: Calibration, d2: Mat)
    ensures Save(c.(params := c.params.(d2 := d2))) == Save(c)
  {
  }

  /** After one round trip the record is a fixed point of the next. */
  lemma LoadSaveIdempotent(c: Calibration)
    ensures Load(Save(Load(Save(c)))) == Load(Save(c))
  {
    LoadSave(c);
    LoadSave(Load(Save(c)));
  }

  /** The other round trip: saving what was loaded from a well-formed
      document reproduces that document, except that "D2" now holds "D1". */
  lemma {:induction false} SaveLoad(fs: Document)
    requires WellFormed(fs)
    ensures Save(Load(fs)) == fs["D2" := fs["D1"]]
  {
    var out := Save(Load(fs));
    var want := fs["D2" := fs["D1"]];
    assert out.Keys == want.Keys;
    forall k | k in Keys
      ensures out[k] == want[k]
    {
      SaveWritesFields(Load(fs), k);
    }
  }

  /** Load always yields a record, even from an empty document (a file that
      could not be opened): every matrix is empty and the size is 0 x 0. */
  lemma LoadEmpty()
    ensures Load(map[]).imgSize == Size(0, 0)
    ensures Load(map[]).params == Params(
      EmptyMat, EmptyMat, EmptyMat, EmptyMat, EmptyMat, EmptyMat, EmptyMat, EmptyMat,
      EmptyMat, EmptyMat, EmptyMat, EmptyMat, EmptyMat,
      EmptyMat, EmptyMat, EmptyMat, EmptyMat)
  {
  }
}
