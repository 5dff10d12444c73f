/** The container level of the layer-data reader: the file header, the layers with their
    object lists, and the trailing tagged sections. */
module Layers {
  import opened Outcomes
  import opened LittleEndian
  import opened Structs
  import opened Shapes

  const FILE_FMT: seq<Field> := [Str(4), I32, I32]     // `<4s2i`: magic, version, nlayers
  const LAYER_FMT: seq<Field> := [Str(64), Flag, I32]  // `<64s?i`: name, imgcoords, nobjects
  const SECTION_FMT: seq<Field> := [I64]               // `<q`: section length

  lemma ContainerSizes()
    ensures Size(FILE_FMT) == 12 && Size(LAYER_FMT) == 69 && Size(SECTION_FMT) == 8
  {
    assert FILE_FMT[1..] == [I32, I32] && FILE_FMT[2..] == [I32];
    assert LAYER_FMT[1..] == [Flag, I32] && LAYER_FMT[2..] == [I32];
    assert SECTION_FMT[1..] == [];
  }

  /** `bytes.rstrip(b'\0')`. */
  function StripNul(bs: seq<byte>): seq<byte>
  {
    if |bs| > 0 && bs[|bs| - 1] == 0 then StripNul(bs[..|bs| - 1]) else bs
  }

  /** Stripping keeps a prefix that does not end in 0 and drops only 0 bytes. */
  lemma {:induction false} StripNulSpec(bs: seq<byte>)
    ensures var r := StripNul(bs);
      && |r| <= |bs| && r == bs[..|r|]
      && (|r| > 0 ==> r[|r| - 1] != 0)
      && forall k :: |r| <= k < |bs| ==> bs[k] == 0
  {
    if |bs| > 0 && bs[|bs| - 1] == 0 {
      StripNulSpec(bs[..|bs| - 1]);
      assert bs[..|bs| - 1][..|StripNul(bs)|] == bs[..|StripNul(bs)|];
    }
  }

  /** The three layer names the header scan accepts. */
  predicate Recognised(name: seq<byte>)
  {
    Ascii(name) in {"ROI", "Label", "Annotation"}
  }

  /** A layer header that the scan accepts starts at byte `q`. */
  predicate LayerHeader(data: seq<byte>, q: nat)
  {
    q + 69 <= |data| && Recognised(StripNul(data[q..q + 64]))
  }

  /** The decoded name and object count of the 69-byte layer header at `q`. */
  function HeaderFields(data: seq<byte>, q: nat): (string, int)
    requires q + 69 <= |data|
  {
    (Ascii(StripNul(data[q..q + 64])), Signed(data[q + 65..q + 69]))
  }

  lemma LayerFields(data: seq<byte>, q: nat)
    requires q + 69 <= |data|
    ensures ConvertAt(data, q, LAYER_FMT).0.Some?
    ensures var vs := ConvertAt(data, q, LAYER_FMT).0.value;
      vs[0] == Chars(data[q..q + 64]) && vs[2] == Int(Signed(data[q + 65..q + 69]))
  {
    ContainerSizes();
    var bs := data[q..q + 69];
    UnpackCons(Str(64), [Flag, I32], bs);
    UnpackCons(Flag, [I32], bs[64..]);
    UnpackCons(I32, [], bs[64..][1..]);
    assert LAYER_FMT == [Str(64)] + [Flag, I32] && [Flag, I32] == [Flag] + [I32] && [I32] == [I32] + [];
    assert bs[..64] == data[q..q + 64];
    assert bs[64..][1..][..4] == data[q + 65..q + 69];
  }

  /** The resynchronising scan of a layer header from cursor `p`: the first position at or
      after `p` holding a recognised header, and the cursor just past it. The source loops for
      ever when there is none; here that is `NoLayerHeader`. */
  function ScanAt(data: seq<byte>, p: nat): (o: Outcome<(string, int)>)
    decreases Avail(data, p)
    ensures o.Done? ==> p + 69 <= o.pos <= |data|
  {
    if Avail(data, p) < 69 then Crash(NoLayerHeader)
    else if Recognised(StripNul(data[p..p + 64])) then Done(HeaderFields(data, p), p + 69)
    else ScanAt(data, p + 1)
  }

  /** The scan stops at the first recognised header at or after `p` and returns its fields;
      it fails only when there is none. */
  lemma {:induction false} ScanResult(data: seq<byte>, p: nat)
    ensures var o := ScanAt(data, p);
      && (o.Done? ==> && LayerHeader(data, o.pos - 69)
                      && o.value == HeaderFields(data, o.pos - 69)
                      && forall j :: p <= j < o.pos - 69 ==> !LayerHeader(data, j))
      && (o.Crash? ==> o.error == NoLayerHeader && forall j :: p <= j < |data| ==> !LayerHeader(data, j))
    decreases Avail(data, p)
  {
    if Avail(data, p) >= 69 && !Recognised(StripNul(data[p..p + 64])) {
      ScanResult(data, p + 1);
    }
  }

  /** Every recognised header position is found unless an earlier one is. */
  lemma ScanFinds(data: seq<byte>, p: nat, q: nat)
    requires p <= q && LayerHeader(data, q)
    ensures ScanAt(data, p).Done? && ScanAt(data, p).pos <= q + 69
  {
    ScanResult(data, p);
  }

  /** What reading one record from a cursor does; the layer reader uses `ObjectAt`. */
  type RecordReader = (seq<byte>, nat) -> Outcome<Option<Obj>>

  /** A reader whose objects all have as many x as y coordinates. */
  ghost predicate Sound(read: RecordReader)
  {
    forall d: seq<byte>, p: nat :: read(d, p).Done? && read(d, p).value.Some? ==> WellFormed(read(d, p).value.value.geometry)
  }

  /** `read` agrees with `ObjectAt` wherever `ObjectAt` is spoken of. */
  ghost predicate ReadsObjects(read: RecordReader)
  {
    forall d, p {:trigger ObjectAt(d, p)} :: read(d, p) == ObjectAt(d, p)
  }

  lemma ObjectReaderSound()
    ensures Sound(ObjectAt)
  {
    forall d: seq<byte>, p: nat
      ensures ObjectAt(d, p).Done? && ObjectAt(d, p).value.Some? ==> WellFormed(ObjectAt(d, p).value.value.geometry)
    {
      ObjectWellFormed(d, p);
    }
  }

  /** The object loop of a layer: at most `left` more records from cursor `pos`, stopping
      after a record that is not an object or that ends at or past `end`. Objects are appended
      to `acc`; the cursor is where the loop leaves it. */
  function ObjectLoop(read: RecordReader, data: seq<byte>, pos: nat, end: int, left: nat, acc: seq<Obj>): (o: Outcome<seq<Obj>>)
    decreases left
  {
    if left == 0 then Done(acc, pos)
    else
      match read(data, pos)
      case Crash(e) => Crash(e)
      case Done(obj, p) =>
        var acc' := if obj.Some? then acc + [obj.value] else acc;
        if obj.None? || p >= end then Done(acc', p)
        else ObjectLoop(read, data, p, end, left - 1, acc')
  }

  /** One record of the loop, given what reading it returned. */
  lemma LoopStep(read: RecordReader, data: seq<byte>, pos: nat, end: int, left: nat, acc: seq<Obj>, res: Result<Option<Obj>>, p: nat)
    requires left > 0 && Returned(read(data, pos), res, p)
    ensures res.Err? ==> ObjectLoop(read, data, pos, end, left, acc) == Crash(res.error)
    ensures res.Ok? && res.value.None? ==> ObjectLoop(read, data, pos, end, left, acc) == Done(acc, p)
    ensures res.Ok? && res.value.Some? ==>
      var acc' := acc + [res.value.value];
      ObjectLoop(read, data, pos, end, left, acc) ==
        if p >= end then Done(acc', p) else ObjectLoop(read, data, p, end, left - 1, acc')
  {
  }

  /** The loop only appends to `acc`, at most one object per record. */
  lemma {:induction false} ObjectLoopGrows(read: RecordReader, data: seq<byte>, pos: nat, end: int, left: nat, acc: seq<Obj>)
    ensures var o := ObjectLoop(read, data, pos, end, left, acc);
      o.Done? ==> |acc| <= |o.value| <= |acc| + left && o.value[..|acc|] == acc
    decreases left
  {
    if left > 0 {
      var r := read(data, pos);
      if r.Done? {
        LoopStep(read, data, pos, end, left, acc, Ok(r.value), r.pos);
      }
      if r.Done? && r.value.Some? && r.pos < end {
        var acc' := acc + [r.value.value];
        ObjectLoopGrows(read, data, r.pos, end, left - 1, acc');
        var o := ObjectLoop(read, data, r.pos, end, left - 1, acc');
        if o.Done? {
          assert o.value[..|acc|] == o.value[..|acc'|][..|acc|];
        }
      }
    }
  }

  /** The object loop started at cursor `pos` with `left` records to go and objects `acc`
      gets, after m records that were all objects ending short of `end`, to cursor `q` with
      objects `acc2`. */
  ghost predicate Reaches(read: RecordReader, data: seq<byte>, pos: nat, end: int, left: nat, acc: seq<Obj>,
                          q: nat, m: nat, acc2: seq<Obj>)
    decreases m
  {
    if m == 0 then pos == q && acc == acc2
    else
      && left > 0 && read(data, pos).Done? && read(data, pos).value.Some? && read(data, pos).pos < end
      && Reaches(read, data, read(data, pos).pos, end, left - 1, acc + [read(data, pos).value.value], q, m - 1, acc2)
  }

  /** The loop keeps fewer than `left` more objects, with the cursor short of `end`, only when
      it reached, before its last record, a record that was not an object: the loop gets to
      some cursor q, holding its final objects, and the record at q is not an object and
      ends where the loop ends. */
  lemma {:induction false} ObjectLoopStops(read: RecordReader, data: seq<byte>, pos: nat, end: int, left: nat, acc: seq<Obj>)
    ensures var o := ObjectLoop(read, data, pos, end, left, acc);
      o.Done? && |o.value| < |acc| + left && o.pos < end ==>
        exists q: nat, m: nat :: && m < left && Reaches(read, data, pos, end, left, acc, q, m, o.value)
                                 && read(data, q) == Done(None, o.pos)
    decreases left
  {
    var o := ObjectLoop(read, data, pos, end, left, acc);
    if left > 0 && o.Done? && |o.value| < |acc| + left && o.pos < end {
      var r := read(data, pos);
      if r.Done? && r.value.None? {
        assert Reaches(read, data, pos, end, left, acc, pos, 0, o.value);
        assert read(data, pos) == Done(None, o.pos);
      } else if r.Done? && r.pos < end {
        var acc' := acc + [r.value.value];
        assert o == ObjectLoop(read, data, r.pos, end, left - 1, acc');
        ObjectLoopStops(read, data, r.pos, end, left - 1, acc');
        var q: nat, m: nat :| && m < left - 1 && Reaches(read, data, r.pos, end, left - 1, acc', q, m, o.value)
                              && read(data, q) == Done(None, o.pos);
        assert Reaches(read, data, pos, end, left, acc, q, m + 1, o.value);
      }
    }
  }

  /** With a sound reader, every object of the loop has as many x as y coordinates. */
  lemma {:induction false} ObjectLoopWellFormed(read: RecordReader, data: seq<byte>, pos: nat, end: int, left: nat, acc: seq<Obj>)
    requires Sound(read)
    requires forall k :: 0 <= k < |acc| ==> WellFormed(acc[k].geometry)
    ensures var o := ObjectLoop(read, data, pos, end, left, acc);
      o.Done? ==> forall k :: 0 <= k < |o.value| ==> WellFormed(o.value[k].geometry)
    decreases left
  {
    if left > 0 {
      var r := read(data, pos);
      if r.Done? {
        LoopStep(read, data, pos, end, left, acc, Ok(r.value), r.pos);
        var acc' := if r.value.Some? then acc + [r.value.value] else acc;
        assert forall k :: 0 <= k < |acc'| ==> WellFormed(acc'[k].geometry);
        if r.value.Some? && r.pos < end {
          ObjectLoopWellFormed(read, data, r.pos, end, left - 1, acc');
        }
      }
    }
  }

  /** The objects of a layer with `nobjects` declared objects, the cursor after the layer
      header: nothing is read for `nobjects <= 0`; otherwise the buffer size, then the object
      loop, then a seek to the end of the buffer whatever the loop consumed. */
  function LayerObjectsAt(data: seq<byte>, pos: nat, nobjects: int): (o: Outcome<seq<Obj>>)
  {
    var read: RecordReader := ObjectAt;
    if nobjects <= 0 then Done([], pos)
    else
      var (size, p1) := ConvertAt(data, pos, COUNT_FMT);
      if size.None? then
        // the first record is read before `obj_pos + buf_size` fails on None
        match read(data, p1)
        case Crash(e) => Crash(e)
        case Done(_, _) => Crash(Truncated)
      else
        var end := p1 + size.value[0].i;
        match ObjectLoop(read, data, p1, end, nobjects, [])
        case Crash(e) => Crash(e)
        case Done(objs, _) => if end < 0 then Crash(NegativeSeek) else Done(objs, end)
  }

  /** Nothing is read for `nobjects <= 0`; otherwise the 4-byte buffer size must be there. */
  lemma LayerObjectsShort(data: seq<byte>, pos: nat, nobjects: int)
    ensures nobjects <= 0 ==> LayerObjectsAt(data, pos, nobjects) == Done([], pos)
    ensures nobjects > 0 && Avail(data, pos) < 4 ==> LayerObjectsAt(data, pos, nobjects).Crash?
  {
    FormatSizes();
  }

  /** A layer holds at most `nobjects` objects, and the cursor ends exactly at the end of the
      declared buffer, however much of it the objects used. */
  lemma LayerObjectsBounds(data: seq<byte>, pos: nat, nobjects: int)
    ensures var o := LayerObjectsAt(data, pos, nobjects);
      o.Done? && nobjects > 0 ==>
        && Avail(data, pos) >= 4 && o.pos == pos + 4 + Signed(data[pos..pos + 4])
        && |o.value| <= nobjects
  {
    FormatSizes();
    if nobjects > 0 && Avail(data, pos) >= 4 {
      CountValue(data, pos);
      ObjectLoopGrows(ObjectAt, data, pos + 4, pos + 4 + Signed(data[pos..pos + 4]), nobjects, []);
    }
  }

  /** Every object of a layer has as many x as y coordinates. */
  lemma LayerObjectsWellFormed(data: seq<byte>, pos: nat, nobjects: int)
    ensures var o := LayerObjectsAt(data, pos, nobjects);
      o.Done? ==> forall k :: 0 <= k < |o.value| ==> WellFormed(o.value[k].geometry)
  {
    var (size, p1) := ConvertAt(data, pos, COUNT_FMT);
    if nobjects > 0 && size.Some? {
      ObjectReaderSound();
      ObjectLoopWellFormed(ObjectAt, data, p1, p1 + size.value[0].i, nobjects, []);
    }
  }

  /** One pass of the layer loop from cursor `pos`: the header scan, then the layer's
      objects; the result is the layer's name and objects. */
  function LayerAt(data: seq<byte>, pos: nat): (o: Outcome<(string, seq<Obj>)>)
  {
    match ScanAt(data, pos)
    case Crash(e) => Crash(e)
    case Done(hdr, p) =>
      match LayerObjectsAt(data, p, hdr.1)
      case Crash(e) => Crash(e)
      case Done(objs, p2) => Done((hdr.0, objs), p2)
  }

  /** A layer found by the scan is named ROI, Label or Annotation. */
  lemma LayerName(data: seq<byte>, pos: nat)
    ensures var o := LayerAt(data, pos); o.Done? ==> o.value.0 in {"ROI", "Label", "Annotation"}
  {
    ScanResult(data, pos);
  }

  /** What reading one layer does from a cursor; the file reader uses `LayerAt`. */
  type LayerReader = (seq<byte>, nat) -> Outcome<(string, seq<Obj>)>

  /** `layer` agrees with `LayerAt` wherever `LayerAt` is spoken of. */
  ghost predicate ReadsLayers(layer: LayerReader)
  {
    forall d, p {:trigger LayerAt(d, p)} :: layer(d, p) == LayerAt(d, p)
  }

  /** A reader whose layers are all named ROI, Label or Annotation. */
  ghost predicate Named(layer: LayerReader)
  {
    forall d: seq<byte>, p: nat :: layer(d, p).Done? ==> layer(d, p).value.0 in {"ROI", "Label", "Annotation"}
  }

  lemma LayerReaderNamed()
    ensures Named(LayerAt)
  {
    forall d: seq<byte>, p: nat
      ensures LayerAt(d, p).Done? ==> LayerAt(d, p).value.0 in {"ROI", "Label", "Annotation"}
    {
      LayerName(d, p);
    }
  }

  /** The layer loop: `left` more layers from cursor `pos`, each stored under its name in
      `acc` (a later layer of the same name replaces an earlier one). */
  function LayersAt(layer: LayerReader, data: seq<byte>, pos: nat, left: nat, acc: map<string, seq<Obj>>): (o: Outcome<map<string, seq<Obj>>>)
    decreases left
  {
    if left == 0 then Done(acc, pos)
    else
      match layer(data, pos)
      case Crash(e) => Crash(e)
      case Done(l, p) => LayersAt(layer, data, p, left - 1, acc[l.0 := l.1])
  }

  /** One layer of the loop, given what reading it returned. */
  lemma LayersStep(layer: LayerReader, data: seq<byte>, pos: nat, left: nat, acc: map<string, seq<Obj>>, res: Result<(string, seq<Obj>)>, p: nat)
    requires left > 0 && Returned(layer(data, pos), res, p)
    ensures res.Err? ==> LayersAt(layer, data, pos, left, acc) == Crash(res.error)
    ensures res.Ok? ==> LayersAt(layer, data, pos, left, acc) == LayersAt(layer, data, p, left - 1, acc[res.value.0 := res.value.1])
  {
  }

  /** With a reader of named layers, the names already stored stay, and only the three
      recognised names are added. */
  lemma {:induction false} LayerNames(layer: LayerReader, data: seq<byte>, pos: nat, left: nat, acc: map<string, seq<Obj>>)
    requires Named(layer)
    ensures var o := LayersAt(layer, data, pos, left, acc);
      o.Done? ==> && acc.Keys <= o.value.Keys
                  && o.value.Keys <= acc.Keys + {"ROI", "Label", "Annotation"}
    decreases left
  {
    if left > 0 {
      var l := layer(data, pos);
      if l.Done? {
        LayerNames(layer, data, l.pos, left - 1, acc[l.value.0 := l.value.1]);
      }
    }
  }

  /** Every object of every layer has as many x as y coordinates. */
  predicate LayersWellFormed(layers: map<string, seq<Obj>>)
  {
    forall name, k :: name in layers && 0 <= k < |layers[name]| ==> WellFormed(layers[name][k].geometry)
  }

  /** A reader whose layers hold only objects with as many x as y coordinates. */
  ghost predicate SoundLayers(layer: LayerReader)
  {
    forall d: seq<byte>, p: nat, k :: layer(d, p).Done? && 0 <= k < |layer(d, p).value.1| ==>
      WellFormed(layer(d, p).value.1[k].geometry)
  }

  lemma LayerReaderSound()
    ensures SoundLayers(LayerAt)
  {
    forall d: seq<byte>, p: nat | LayerAt(d, p).Done?
      ensures forall k :: 0 <= k < |LayerAt(d, p).value.1| ==> WellFormed(LayerAt(d, p).value.1[k].geometry)
    {
      var s := ScanAt(d, p);
      LayerObjectsWellFormed(d, s.pos, s.value.1);
    }
  }

  lemma {:induction false} LayersSound(layer: LayerReader, data: seq<byte>, pos: nat, left: nat, acc: map<string, seq<Obj>>)
    requires SoundLayers(layer) && LayersWellFormed(acc)
    ensures var o := LayersAt(layer, data, pos, left, acc); o.Done? ==> LayersWellFormed(o.value)
    decreases left
  {
    if left > 0 {
      var l := layer(data, pos);
      if l.Done? {
        LayersSound(layer, data, l.pos, left - 1, acc[l.value.0 := l.value.1]);
      }
    }
  }

  /** The tagged sections after the layers. */
  datatype Trailer = Trailer(sections: map<string, seq<byte>>, ldff: Option<string>)

  /** How the tagged-section loop treats a tag. */
  datatype Tag = End | Ldff | LayerImage | Section(key: string) | Unknown

  /** The `if`/`elif` chain on a tag: the empty tag, an `LDFF` prefix, `[LayerImage]`, the two
      bracketed section tags (keyed by the tag without its brackets), anything else. */
  function Classify(magic: string): (t: Tag)
    ensures t == End <==> magic == ""
    ensures t == Ldff <==> |magic| >= 4 && magic[..4] == "LDFF"
    ensures t == LayerImage <==> magic == "[LayerImage]"
    ensures t.Section? <==> magic == "[LayerConfigs]" || magic == "[LayerAtlas]"
    ensures t.Section? ==> t.key in {"LayerConfigs", "LayerAtlas"}
    ensures t == Unknown <==>
      && magic != "" && !(|magic| >= 4 && magic[..4] == "LDFF")
      && magic !in {"[LayerImage]", "[LayerConfigs]", "[LayerAtlas]"}
  {
    assert "[LayerImage]"[..4] == "[Lay" && "[LayerConfigs]"[..4] == "[Lay" && "[LayerAtlas]"[..4] == "[Lay";
    if magic == "" then End
    else if |magic| >= 4 && magic[..4] == "LDFF" then Ldff
    else if magic == "[LayerImage]" then LayerImage
    else if magic == "[LayerConfigs]" then Section("LayerConfigs")
    else if magic == "[LayerAtlas]" then Section("LayerAtlas")
    else Unknown
  }

  /** A section is stored under `magic[1:-1]`. */
  lemma SectionKey(magic: string)
    requires Classify(magic).Section?
    ensures magic == "[" + Classify(magic).key + "]"
    ensures Classify(magic).key == magic[1..|magic| - 1]
  {
  }

  /** What one pass of the tagged-section loop does: stop with the sections so far, go on
      from a new cursor, or raise. */
  datatype Step = Stop(t: Trailer, pos: nat) | Next(t: Trailer, pos: nat) | Fail(error: Error)

  /** One pass from cursor `pos`: an empty tag or an unknown one stops, an `LDFF...` tag is
      recorded and stops, `[LayerImage]` stops when its name is empty and raises otherwise,
      and a section tag stores its length-prefixed payload and goes on. */
  function TrailingStep(data: seq<byte>, pos: nat, acc: Trailer): (s: Step)
    ensures s.Next? ==> pos < s.pos <= |data|
  {
    match TextAt(data, pos)
    case Crash(e) => Fail(e)
    case Done(magic, p1) =>
      match Classify(magic)
      case End => Stop(acc, p1)
      case Ldff => Stop(acc.(ldff := Some(magic)), p1)
      case LayerImage =>
        (match TextAt(data, p1)
         case Crash(e) => Fail(e)
         case Done(name, p2) => if name == "" then Stop(acc, p2) else Fail(LayerImageData))
      case Section(key) =>
        var (len, p2) := ConvertAt(data, p1, SECTION_FMT);
        if len.None? then Fail(Truncated)
        else
          var payload := if len.value[0].i > 0 then Take(data, p2, len.value[0].i) else [];
          Next(acc.(sections := acc.sections[key := payload]), p2 + |payload|)
      case Unknown => Stop(acc, p1)
  }

  /** A pass of the tagged-section loop that reads an empty tag, an `LDFF...` tag or a tag it
      does not know ends the loop just past the tag, recording only the `LDFF` one. */
  lemma StopTags(data: seq<byte>, pos: nat, acc: Trailer)
    requires TextAt(data, pos).Done?
    ensures var magic, p1 := TextAt(data, pos).value, TextAt(data, pos).pos;
      && (magic == "" ==> TrailingStep(data, pos, acc) == Stop(acc, p1))
      && (|magic| >= 4 && magic[..4] == "LDFF" ==> TrailingStep(data, pos, acc) == Stop(acc.(ldff := Some(magic)), p1))
      && (Classify(magic) == Unknown ==> TrailingStep(data, pos, acc) == Stop(acc, p1))
  {
  }

  /** `[LayerImage]` ends the loop after an empty name, and raises after any other name. */
  lemma LayerImageTag(data: seq<byte>, pos: nat, acc: Trailer)
    requires TextAt(data, pos).Done? && TextAt(data, pos).value == "[LayerImage]"
    ensures var p1 := TextAt(data, pos).pos;
      match TextAt(data, p1)
      case Done(name, p2) =>
        TrailingStep(data, pos, acc) == if name == "" then Stop(acc, p2) else Fail(LayerImageData)
      case Crash(e) => TrailingStep(data, pos, acc) == Fail(e)
  {
  }

  /** The 8-byte section length at `p`: the signed value of those bytes, 8 bytes on. */
  lemma SectionLength(data: seq<byte>, p: nat)
    requires Avail(data, p) >= 8
    ensures ConvertAt(data, p, SECTION_FMT) == (Some([Int(Signed(data[p..p + 8]))]), p + 8)
  {
    ContainerSizes();
    var bs := data[p..p + 8];
    assert SECTION_FMT[0] == I64 && SECTION_FMT[1..] == [] && bs[..8] == bs;
    assert Unpack(SECTION_FMT, bs) == [UnpackField(I64, bs)];
  }

  /** The bytes a section with its length at `p` stores: the next min(L, remaining) bytes
      after the 8-byte length L, or none when L <= 0. */
  function Payload(data: seq<byte>, p: nat): seq<byte>
    requires Avail(data, p) >= 8
  {
    var len := Signed(data[p..p + 8]);
    if len > 0 then Take(data, p + 8, len) else []
  }

  /** A section tag followed by its 8-byte length stores its payload under the tag without
      its brackets, and the loop goes on just past the payload. */
  lemma SectionStep(data: seq<byte>, pos: nat, acc: Trailer, magic: string, p1: nat)
    requires TextAt(data, pos) == Done(magic, p1) && Classify(magic).Section?
    requires Avail(data, p1) >= 8
    ensures TrailingStep(data, pos, acc) ==
      Next(acc.(sections := acc.sections[magic[1..|magic| - 1] := Payload(data, p1)]), p1 + 8 + |Payload(data, p1)|)
  {
    SectionKey(magic);
    SectionLength(data, p1);
  }

  /** A section tag without a complete 8-byte length raises. */
  lemma SectionTruncated(data: seq<byte>, pos: nat, acc: Trailer, magic: string, p1: nat)
    requires TextAt(data, pos) == Done(magic, p1) && Classify(magic).Section?
    requires Avail(data, p1) < 8
    ensures TrailingStep(data, pos, acc) == Fail(Truncated)
  {
    ContainerSizes();
  }

  /** The tagged-section loop from cursor `pos`. */
  function TrailingAt(data: seq<byte>, pos: nat, acc: Trailer): (o: Outcome<Trailer>)
    decreases Avail(data, pos)
  {
    match TrailingStep(data, pos, acc)
    case Stop(t, p) => Done(t, p)
    case Fail(e) => Crash(e)
    case Next(t, p) => TrailingAt(data, p, t)
  }

  /** The sections a trailer may hold, and the form of its LDFF tag. */
  predicate TrailerShape(t: Trailer)
  {
    && t.sections.Keys <= {"LayerConfigs", "LayerAtlas"}
    && (t.ldff.Some? ==> |t.ldff.value| >= 4 && t.ldff.value[..4] == "LDFF")
  }

  lemma StepShape(data: seq<byte>, pos: nat, acc: Trailer)
    requires TrailerShape(acc)
    ensures var s := TrailingStep(data, pos, acc); !s.Fail? ==> TrailerShape(s.t)
  {
  }

  /** Only `LayerConfigs` and `LayerAtlas` become sections, and a recorded LDFF tag starts
      with `LDFF`. */
  lemma {:induction false} TrailerKeys(data: seq<byte>, pos: nat, acc: Trailer)
    requires TrailerShape(acc)
    ensures var o := TrailingAt(data, pos, acc); o.Done? ==> TrailerShape(o.value)
    decreases Avail(data, pos)
  {
    StepShape(data, pos, acc);
    var s := TrailingStep(data, pos, acc);
    if s.Next? {
      TrailerKeys(data, s.pos, s.t);
    }
  }

  /** A decoded file. */
  datatype Container = Container(
    magic: seq<byte>,
    version: int,
    nlayers: int,
    layers: map<string, seq<Obj>>,
    sections: map<string, seq<byte>>,
    ldff: Option<string>)

  /** `ReadMLDFile` on a file with contents `data`. */
  function DecodeFile(data: seq<byte>): Result<Container>
  {
    var (hdr, p) := ConvertAt(data, 0, FILE_FMT);
    if hdr.None? then Err(ShortHeader)
    else
      var nlayers := hdr.value[2].i;
      match LayersAt(LayerAt, data, p, if nlayers > 0 then nlayers else 0, map[])
      case Crash(e) => Err(e)
      case Done(layers, p2) =>
        match TrailingAt(data, p2, Trailer(map[], None))
        case Crash(e) => Err(e)
        case Done(t, _) => Ok(Container(hdr.value[0].bytes, hdr.value[1].i, nlayers, layers, t.sections, t.ldff))
  }

  lemma FileFields(data: seq<byte>)
    requires |data| >= 12
    ensures ConvertAt(data, 0, FILE_FMT) ==
      (Some([Chars(data[..4]), Int(Signed(data[4..8])), Int(Signed(data[8..12]))]), 12)
  {
    ContainerSizes();
    var bs := data[0..12];
    UnpackCons(Str(4), [I32, I32], bs);
    UnpackCons(I32, [I32], bs[4..]);
    UnpackCons(I32, [], bs[4..][4..]);
    assert FILE_FMT == [Str(4)] + [I32, I32] && [I32, I32] == [I32] + [I32] && [I32] == [I32] + [];
    assert bs[..4] == data[..4];
    assert bs[4..][..4] == data[4..8];
    assert bs[4..][4..][..4] == data[8..12];
    assert Unpack(FILE_FMT, bs) == [Chars(data[..4]), Int(Signed(data[4..8])), Int(Signed(data[8..12]))];
    assert ConvertAt(data, 0, FILE_FMT).0 == Some(Unpack(FILE_FMT, bs));
  }

  /** A file shorter than its 12-byte header raises; otherwise the header fields are its first
      4 bytes and two signed 32-bit words, the layers are named ROI, Label or Annotation (none
      for nlayers <= 0), and only the two known sections appear. */
  lemma DecodeFileShape(data: seq<byte>)
    ensures |data| < 12 ==> DecodeFile(data) == Err(ShortHeader)
    ensures DecodeFile(data).Ok? ==>
      var c := DecodeFile(data).value;
      && |data| >= 12 && c.magic == data[..4]
      && c.version == Signed(data[4..8]) && c.nlayers == Signed(data[8..12])
      && c.layers.Keys <= {"ROI", "Label", "Annotation"}
      && (c.nlayers <= 0 ==> c.layers == map[])
      && c.sections.Keys <= {"LayerConfigs", "LayerAtlas"}
  {
    ContainerSizes();
    if |data| >= 12 {
      FileFields(data);
      var nlayers := Signed(data[8..12]);
      var left := if nlayers > 0 then nlayers else 0;
      LayerReaderNamed();
      LayerNames(LayerAt, data, 12, left, map[]);
      match LayersAt(LayerAt, data, 12, left, map[])
      case Crash(_) =>
      case Done(layers, p2) =>
        TrailerKeys(data, p2, Trailer(map[], None));
    }
  }

  /** Every object of a decoded file has as many x as y coordinates. */
  lemma DecodedWellFormed(data: seq<byte>)
    ensures DecodeFile(data).Ok? ==> LayersWellFormed(DecodeFile(data).value.layers)
  {
    var (hdr, p) := ConvertAt(data, 0, FILE_FMT);
    if hdr.Some? {
      var nlayers := hdr.value[2].i;
      LayerReaderSound();
      LayersSound(LayerAt, data, p, if nlayers > 0 then nlayers else 0, map[]);
    }
  }

  // ---------------------------------------------------------------------------------------
  // The reader, on a file cursor.

  /** The `while 1` scan for a layer header. */
  method ScanLayerHeader(f: Stream) returns (r: Result<(string, int)>)
    modifies f
    ensures Returned(ScanAt(f.data, old(f.pos)), r, f.pos)
  {
    var layerPos := f.pos;
    while true
      invariant ScanAt(f.data, old(f.pos)) == ScanAt(f.data, layerPos)
      decreases Avail(f.data, layerPos)
    {
      if Avail(f.data, layerPos) < 69 {
        return Err(NoLayerHeader);
      }
      f.Seek(layerPos);
      var fields := Convert(f, LAYER_FMT);
      LayerFields(f.data, layerPos);
      if fields.Some? {
        var name := StripNul(fields.value[0].bytes);
        if Recognised(name) {
          return Ok((Ascii(name), fields.value[2].i));
        }
      }
      layerPos := layerPos + 1;
    }
  }

  /** `ReadObject` as the object loop sees it: the same call, specified through the loop's
      record reader. */
  method ReadRecord(ghost read: RecordReader, f: Stream) returns (r: Result<Option<Obj>>)
    requires ReadsObjects(read)
    modifies f
    ensures Returned(read(f.data, old(f.pos)), r, f.pos)
  {
    ghost var start := f.pos;
    r := ReadObject(f);
    assert read(f.data, start) == ObjectAt(f.data, start);
  }

  /** The `for i in range(nobjects)` loop, the cursor at the first record. */
  method ReadRecords(ghost read: RecordReader, f: Stream, end: int, nobjects: nat) returns (r: Result<seq<Obj>>)
    requires ReadsObjects(read)
    modifies f
    ensures Returned(ObjectLoop(read, f.data, old(f.pos), end, nobjects, []), r, f.pos)
  {
    ghost var data, start := f.data, f.pos;
    var objects: seq<Obj> := [];
    var left := nobjects;
    while left > 0
      invariant f.data == data
      invariant ObjectLoop(read, data, start, end, nobjects, []) == ObjectLoop(read, data, f.pos, end, left, objects)
    {
      ghost var before := f.pos;
      var res := ReadRecord(read, f);
      LoopStep(read, data, before, end, left, objects, res, f.pos);
      if res.Err? {
        return Err(res.error);
      }
      var obj := res.value;
      if obj.None? {
        return Ok(objects);
      }
      objects := objects + [obj.value];
      if f.pos >= end {
        return Ok(objects);
      }
      left := left - 1;
    }
    return Ok(objects);
  }

  /** The objects of one layer, the cursor after its header. */
  method ReadLayerObjects(f: Stream, nobjects: int) returns (r: Result<seq<Obj>>)
    modifies f
    ensures Returned(LayerObjectsAt(f.data, old(f.pos), nobjects), r, f.pos)
  {
    if nobjects <= 0 {
      return Ok([]);
    }
    var bufSize := Convert(f, COUNT_FMT);
    var objPos := f.pos;
    if bufSize.None? {
      var obj :- ReadObject(f);
      return Err(Truncated);
    }
    var end := objPos + bufSize.value[0].i;
    var objects :- ReadRecords(ObjectAt, f, end, nobjects);
    if end < 0 {
      return Err(NegativeSeek);
    }
    f.Seek(end);
    return Ok(objects);
  }

  /** One pass of the `while 1` body of the tagged-section loop. */
  method ReadTrailingStep(f: Stream, acc: Trailer) returns (s: Step)
    modifies f
    ensures s == TrailingStep(f.data, old(f.pos), acc)
    ensures !s.Fail? ==> f.pos == s.pos
  {
    var res := ReadText(f);
    if res.Err? {
      return Fail(res.error);
    }
    var magic := res.value;
    match Classify(magic)
    case End =>
      return Stop(acc, f.pos);
    case Ldff =>
      return Stop(acc.(ldff := Some(magic)), f.pos);
    case LayerImage =>
      var name := ReadText(f);
      if name.Err? {
        return Fail(name.error);
      }
      if name.value == "" {
        return Stop(acc, f.pos);
      }
      return Fail(LayerImageData);
    case Section(key) =>
      var len := Convert(f, SECTION_FMT);
      if len.None? {
        return Fail(Truncated);
      }
      var payload: seq<byte> := [];
      if len.value[0].i > 0 {
        payload := f.Read(len.value[0].i);
      }
      return Next(acc.(sections := acc.sections[key := payload]), f.pos);
    case Unknown =>
      return Stop(acc, f.pos);
  }

  /** The tagged-section loop. */
  method ReadTrailing(f: Stream) returns (r: Result<Trailer>)
    modifies f
    ensures Returned(TrailingAt(f.data, old(f.pos), Trailer(map[], None)), r, f.pos)
  {
    var acc := Trailer(map[], None);
    while true
      invariant TrailingAt(f.data, old(f.pos), Trailer(map[], None)) == TrailingAt(f.data, f.pos, acc)
      decreases Avail(f.data, f.pos)
    {
      var s := ReadTrailingStep(f, acc);
      match s
      case Stop(t, _) =>
        return Ok(t);
      case Fail(e) =>
        return Err(e);
      case Next(t, _) =>
        acc := t;
    }
  }

  /** One pass of the layer loop: scan for the header, then read the objects. The result
      is specified through the layer reader of the loop. */
  method ReadLayer(ghost layer: LayerReader, f: Stream) returns (r: Result<(string, seq<Obj>)>)
    requires ReadsLayers(layer)
    modifies f
    ensures Returned(layer(f.data, old(f.pos)), r, f.pos)
  {
    ghost var start := f.pos;
    assert layer(f.data, start) == LayerAt(f.data, start);
    var hdr :- ScanLayerHeader(f);
    var objects :- ReadLayerObjects(f, hdr.1);
    return Ok((hdr.0, objects));
  }

  /** The `for layer_index in range(nlayers)` loop. */
  method ReadLayers(ghost layer: LayerReader, f: Stream, count: nat) returns (r: Result<map<string, seq<Obj>>>)
    requires ReadsLayers(layer)
    modifies f
    ensures Returned(LayersAt(layer, f.data, old(f.pos), count, map[]), r, f.pos)
  {
    ghost var data, start := f.data, f.pos;
    var layers: map<string, seq<Obj>> := map[];
    var i := 0;
    while i < count
      invariant f.data == data && 0 <= i <= count
      invariant LayersAt(layer, data, f.pos, count - i, layers) == LayersAt(layer, data, start, count, map[])
      decreases count - i
    {
      ghost var before := f.pos;
      var res := ReadLayer(layer, f);
      LayersStep(layer, data, before, count - i, layers, res, f.pos);
      if res.Err? {
        return Err(res.error);
      }
      layers := layers[res.value.0 := res.value.1];
      i := i + 1;
    }
    return Ok(layers);
  }

  /** `ReadMLDFile` on a file whose contents are `data`. */
  method ReadMLDFile(data: seq<byte>) returns (r: Result<Container>)
    ensures r == DecodeFile(data)
  {
    var f := new Stream.Open(data);
    var hdr := Convert(f, FILE_FMT);
    if hdr.None? {
      return Err(ShortHeader);
    }
    var nlayers := hdr.value[2].i;
    var layers :- ReadLayers(LayerAt, f, if nlayers > 0 then nlayers else 0);
    var t :- ReadTrailing(f);
    return Ok(Container(hdr.value[0].bytes, hdr.value[1].i, nlayers, layers, t.sections, t.ldff));
  }
}
