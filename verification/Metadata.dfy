/**
  The metadata blob of a stream: a JSON object that the upload and the transcoder write as a whole
  struct and the owner's rotation edit patches as a map. In a patch every number passes through a
  float, so beyond 2^53 another number may be written back, possibly one outside 64 bits.
*/
module Metadata {
  import opened Wrappers
  import opened Floats

  datatype Field = Duration | Size | Format | Resolution | RecordedAt | Location | Camera | Rotation | Extra(name: string)

  datatype Json = Num(n: int) | Text(s: string)

  /** None is a stream that has no metadata yet. */
  type Blob = Option<map<Field, Json>>

  datatype Meta = Meta(duration: int, size: int, format: string, resolution: string,
                       recordedAt: Option<string>, location: Option<string>, camera: Option<string>, rotation: int)

  predicate Int64(n: int) {
    -0x8000_0000_0000_0000 <= n < 0x8000_0000_0000_0000
  }

  /** Integers a float carries exactly. */
  predicate Exact(n: int) {
    Abs(n) <= TWO53
  }

  // ---- json.Marshal and json.Unmarshal of the struct ----

  function With(o: map<Field, Json>, f: Field, v: Option<string>): map<Field, Json> {
    if v.Some? then o[f := Text(v.value)] else o
  }

  /** omitempty drops absent options and a zero rotation. */
  function Encode(m: Meta): map<Field, Json> {
    var o := map[Duration := Num(m.duration), Size := Num(m.size), Format := Text(m.format), Resolution := Text(m.resolution)];
    var o1 := With(With(With(o, RecordedAt, m.recordedAt), Location, m.location), Camera, m.camera);
    if m.rotation != 0 then o1[Rotation := Num(m.rotation)] else o1
  }

  function NumAt(o: map<Field, Json>, f: Field): int {
    if f in o && o[f].Num? then o[f].n else 0
  }

  function TextAt(o: map<Field, Json>, f: Field): string {
    if f in o && o[f].Text? then o[f].s else ""
  }

  function OptAt(o: map<Field, Json>, f: Field): Option<string> {
    if f in o && o[f].Text? then Some(o[f].s) else None
  }

  predicate NumOk(o: map<Field, Json>, f: Field) {
    f in o ==> o[f].Num? && Int64(o[f].n)
  }

  predicate TextOk(o: map<Field, Json>, f: Field) {
    f in o ==> o[f].Text?
  }

  predicate Typed(o: map<Field, Json>) {
    && NumOk(o, Duration) && NumOk(o, Size) && NumOk(o, Rotation)
    && TextOk(o, Format) && TextOk(o, Resolution)
    && TextOk(o, RecordedAt) && TextOk(o, Location) && TextOk(o, Camera)
  }

  /** GetMetadata; None is its error. */
  function Decode(b: Blob): Option<Meta> {
    if b.None? || !Typed(b.value) then None
    else
      var o := b.value;
      Some(Meta(NumAt(o, Duration), NumAt(o, Size), TextAt(o, Format), TextAt(o, Resolution),
                OptAt(o, RecordedAt), OptAt(o, Location), OptAt(o, Camera), NumAt(o, Rotation)))
  }

  lemma EncodeDecodes(m: Meta)
    requires Int64(m.duration) && Int64(m.size) && Int64(m.rotation)
    ensures Decode(Some(Encode(m))) == Some(m)
  {
  }

  /** Which key carries what: every field is written under its own name, and read back from there. */
  lemma EncodedFields(m: Meta)
    ensures var o := Encode(m);
            && o.Keys == {Duration, Size, Format, Resolution}
                         + (if m.recordedAt.Some? then {RecordedAt} else {}) + (if m.location.Some? then {Location} else {})
                         + (if m.camera.Some? then {Camera} else {}) + (if m.rotation != 0 then {Rotation} else {})
            && o[Duration] == Num(m.duration) && o[Size] == Num(m.size)
            && o[Format] == Text(m.format) && o[Resolution] == Text(m.resolution)
            && (m.recordedAt.Some? ==> o[RecordedAt] == Text(m.recordedAt.value))
            && (m.location.Some? ==> o[Location] == Text(m.location.value))
            && (m.camera.Some? ==> o[Camera] == Text(m.camera.value))
            && (m.rotation != 0 ==> o[Rotation] == Num(m.rotation))
  {
  }

  /** The type a stored value of this key must have. */
  ghost predicate WellTyped(f: Field, v: Json) {
    match f
    case Duration | Size | Rotation => v.Num? && -0x8000_0000_0000_0000 <= v.n < 0x8000_0000_0000_0000
    case Format | Resolution | RecordedAt | Location | Camera => v.Text?
    case Extra(_) => true
  }

  /** A blob decodes exactly when every known key has a value of its type; unknown keys are ignored. */
  lemma {:induction false} DecodesExactly(b: Blob)
    ensures Decode(b).Some? <==> b.Some? && forall f :: f in b.value ==> WellTyped(f, b.value[f])
    ensures Decode(b).Some? ==>
              var o, m := b.value, Decode(b).value;
              && m.duration == (if Duration in o then o[Duration].n else 0) && m.size == (if Size in o then o[Size].n else 0)
              && m.rotation == (if Rotation in o then o[Rotation].n else 0)
              && m.format == (if Format in o then o[Format].s else "")
              && m.resolution == (if Resolution in o then o[Resolution].s else "")
              && m.recordedAt == (if RecordedAt in o then Some(o[RecordedAt].s) else None)
              && m.location == (if Location in o then Some(o[Location].s) else None)
              && m.camera == (if Camera in o then Some(o[Camera].s) else None)
  {
    if b.Some? && forall f :: f in b.value ==> WellTyped(f, b.value[f]) {
      assert Typed(b.value);
    }
  }

  // ---- the two writers after upload ----

  function Reread(v: Json): Json {
    if v.Num? then Num(Written(v.n)) else v
  }

  /** setStreamRotation: decode into a map, set one key, encode. */
  function OwnerSave(b: Blob, rotation: int): Blob {
    var o := if b.Some? then b.value else map[];
    Some((map f | f in o :: Reread(o[f]))[Rotation := Num(rotation)])
  }

  /** UpdateStreamMetadata: a zero rotation means "not provided" and is carried over if the old blob decodes. */
  function WorkerSave(b: Blob, m: Meta): Blob {
    var carried := if m.rotation == 0 && Decode(b).Some? then m.(rotation := Decode(b).value.rotation) else m;
    Some(Encode(carried))
  }

  /** What the clients see: no metadata, or unreadable metadata, has no rotation. */
  function RotationOf(b: Blob): int {
    if Decode(b).Some? then Decode(b).value.rotation else 0
  }

  predicate InRange(m: Meta) {
    Int64(m.duration) && Int64(m.size) && Int64(m.rotation)
  }

  predicate LegibleAt(o: map<Field, Json>, f: Field) {
    f in o && o[f].Num? ==> Abs(o[f].n) < ILLEGIBLE
  }

  /** It decodes, and its size and duration can pass through a float and still fit 64 bits. */
  predicate Legible(b: Blob) {
    b.Some? && Typed(b.value) && LegibleAt(b.value, Duration) && LegibleAt(b.value, Size)
  }

  predicate LegibleMeta(m: Meta) {
    InRange(m) && Abs(m.duration) < ILLEGIBLE && Abs(m.size) < ILLEGIBLE
  }

  /**
    An owner edit sets one key and keeps every other one, numbers as far as a float carries them; on
    a stream without metadata it writes that one key alone.
  */
  lemma OwnerSaveKeepsOthers(b: Blob, rotation: int)
    ensures b.None? ==> OwnerSave(b, rotation) == Some(map[Rotation := Num(rotation)])
    ensures b.Some? ==>
              var o := OwnerSave(b, rotation);
              && o.Some? && o.value.Keys == b.value.Keys + {Rotation} && o.value[Rotation] == Num(rotation)
              && forall f :: f in b.value && f != Rotation && (b.value[f].Num? ==> Exact(b.value[f].n)) ==>
                   o.value[f] == b.value[f]
  {
    if b.Some? {
      forall f | f in b.value && b.value[f].Num? && Exact(b.value[f].n)
        ensures Reread(b.value[f]) == b.value[f]
      {
        WrittenExactly(b.value[f].n);
      }
    } else {
      assert OwnerSave(b, rotation).value.Keys == {Rotation};
    }
  }

  lemma RereadStaysNum(o: map<Field, Json>, f: Field)
    requires f in o
    ensures var v := Reread(o[f]);
            && (v.Num? <==> o[f].Num?)
            && (o[f].Num? ==> (Abs(v.n) < ILLEGIBLE <==> Abs(o[f].n) < ILLEGIBLE) && (Int64(v.n) <==> Abs(o[f].n) < ILLEGIBLE))
  {
    if o[f].Num? {
      LegibleExactly(o[f].n);
    }
  }

  /** Exactly when an edited blob can still be read: the stored size and duration are below 2^63 - 512. */
  lemma OwnerSaveReadableExactly(b: Blob, rotation: int)
    requires b.Some? && Typed(b.value) && Int64(rotation)
    ensures Decode(OwnerSave(b, rotation)).Some? <==> Legible(b)
    ensures Legible(b) ==> Legible(OwnerSave(b, rotation)) && RotationOf(OwnerSave(b, rotation)) == rotation
  {
    var o, o1 := b.value, OwnerSave(b, rotation).value;
    forall f | f in o && f != Rotation
      ensures f in o1 && o1[f] == Reread(o[f]) && (o1[f].Num? <==> o[f].Num?)
      ensures o[f].Num? ==> (Abs(o1[f].n) < ILLEGIBLE <==> Abs(o[f].n) < ILLEGIBLE)
      ensures o[f].Num? ==> (Int64(o1[f].n) <==> Abs(o[f].n) < ILLEGIBLE)
    {
      RereadStaysNum(o, f);
    }
  }

  /** What is stored after a worker update: the worker's record, whose rotation only a nonzero one of its own overrides. */
  lemma WorkerSaveStores(b: Blob, m: Meta)
    requires InRange(m)
    ensures var before, stored := Decode(b), Decode(WorkerSave(b, m));
            && stored.Some?
            && stored.value.rotation == (if m.rotation != 0 then m.rotation else if before.Some? then before.value.rotation else 0)
            && stored.value == m.(rotation := stored.value.rotation)
  {
    EncodeDecodes(m);
    if Decode(b).Some? {
      EncodeDecodes(m.(rotation := Decode(b).value.rotation));
    }
  }

  lemma WorkerSaveKeepsRotation(b: Blob, m: Meta)
    requires b.Some? && Typed(b.value) && InRange(m) && m.rotation == 0
    ensures Decode(WorkerSave(b, m)) == Some(m.(rotation := RotationOf(b)))
    ensures LegibleMeta(m) ==> Legible(WorkerSave(b, m))
  {
    EncodeDecodes(m.(rotation := RotationOf(b)));
  }

  /** Exactly when a worker update keeps a saved rotation: the old blob must still decode. */
  lemma WorkerSaveKeepsRotationExactly(b: Blob, m: Meta, rotation: int)
    requires b.Some? && Rotation in b.value && b.value[Rotation] == Num(rotation)
    requires InRange(m) && m.rotation == 0 && Int64(rotation) && rotation != 0
    ensures RotationOf(WorkerSave(b, m)) == rotation <==> Typed(b.value)
  {
    EncodeDecodes(m);
    EncodeDecodes(m.(rotation := rotation));
  }

  /**
    Exactly when the next transcoder update drops a rotation the owner has just saved: the stored
    size or duration is 2^63 - 512 or more, which the owner's edit writes back as more than 64 bits.
  */
  lemma WideNumbersLoseRotationExactly(b: Blob, rotation: int, m: Meta)
    requires b.Some? && Typed(b.value) && Int64(rotation) && rotation != 0
    requires InRange(m) && m.rotation == 0
    ensures RotationOf(WorkerSave(OwnerSave(b, rotation), m)) == rotation <==> Legible(b)
  {
    var o := OwnerSave(b, rotation);
    OwnerSaveReadableExactly(b, rotation);
    WorkerSaveKeepsRotationExactly(o, m, rotation);
  }

  /** The least size that loses it, and the greatest that does not. */
  lemma LeastSizeThatLosesRotation(m: Meta)
    requires InRange(m) && m.rotation == 0
    ensures var b := Some(Encode(Meta(0, 9223372036854775296, "", "", None, None, None, 0)));
            Decode(b).Some? && RotationOf(WorkerSave(OwnerSave(b, 90), m)) == 0
    ensures var b := Some(Encode(Meta(0, 9223372036854775295, "", "", None, None, None, 0)));
            RotationOf(WorkerSave(OwnerSave(b, 90), m)) == 90
  {
    var lost := Meta(0, 9223372036854775296, "", "", None, None, None, 0);
    var kept := Meta(0, 9223372036854775295, "", "", None, None, None, 0);
    EncodeDecodes(lost);
    EncodeDecodes(kept);
    EncodeDecodes(m);
    OwnerSaveReadableExactly(Some(Encode(lost)), 90);
    WideNumbersLoseRotationExactly(Some(Encode(kept)), 90, m);
  }

  // ---- runs of edits ----

  datatype Edit = ByOwner(rotation: int) | ByWorker(meta: Meta)

  function Apply(b: Blob, e: Edit): Blob {
    match e
    case ByOwner(rotation) => OwnerSave(b, rotation)
    case ByWorker(m) => WorkerSave(b, m)
  }

  function ApplyAll(b: Blob, edits: seq<Edit>): Blob {
    if edits == [] then b else Apply(ApplyAll(b, edits[..|edits| - 1]), edits[|edits| - 1])
  }

  function LastSaved(initial: int, edits: seq<Edit>): int {
    if edits == [] then initial
    else if edits[|edits| - 1].ByOwner? then edits[|edits| - 1].rotation
    else LastSaved(initial, edits[..|edits| - 1])
  }

  /** The transcoder never sends a rotation. */
  predicate LegibleEdit(e: Edit) {
    match e
    case ByOwner(rotation) => Int64(rotation)
    case ByWorker(m) => LegibleMeta(m) && m.rotation == 0
  }

  /** After any mix of owner edits and transcoder updates the rotation is the owner's last one. */
  lemma {:induction false} RotationPersists(b: Blob, edits: seq<Edit>)
    requires Legible(b) && forall i :: 0 <= i < |edits| ==> LegibleEdit(edits[i])
    ensures Legible(ApplyAll(b, edits))
    ensures RotationOf(ApplyAll(b, edits)) == LastSaved(RotationOf(b), edits)
  {
    if edits != [] {
      var before := edits[..|edits| - 1];
      RotationPersists(b, before);
      var mid := ApplyAll(b, before);
      match edits[|edits| - 1]
      case ByOwner(rotation) => OwnerSaveReadableExactly(mid, rotation);
      case ByWorker(m) => WorkerSaveKeepsRotation(mid, m);
    }
  }
}
