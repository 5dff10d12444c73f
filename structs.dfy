/** The byte-format layer of the layer-data reader: the `convert` helper over a file cursor
    (Python `struct` formats with the `<` prefix: little-endian, standard sizes, no padding)
    and the null-terminated string reader `read_text`. */
module Structs {
  import opened Outcomes
  import opened LittleEndian
  import opened Floats

  /** One code of a `struct` format string. */
  datatype Field =
    | Str(n: nat)  // `Ns`: n raw bytes
    | Flag         // `?`: one byte, true when it is not 0
    | I8           // `b`
    | I32          // `i`
    | I64          // `q`
    | F32          // `f`
    | F64          // `d`

  /** One unpacked value. */
  datatype Value = Chars(bytes: seq<byte>) | Bool(b: bool) | Int(i: int) | Float(x: Num)

  function FieldSize(fl: Field): (n: nat)
    ensures n > 0 || fl == Str(0)
  {
    match fl
    case Str(n) => n
    case Flag => 1
    case I8 => 1
    case I32 => 4
    case I64 => 8
    case F32 => 4
    case F64 => 8
  }

  /** `struct.calcsize` of a `<` format: the sum of the field sizes. */
  function Size(fmt: seq<Field>): nat
  {
    if fmt == [] then 0 else FieldSize(fmt[0]) + Size(fmt[1..])
  }

  /** `v` is a value that field `fl` can produce. */
  predicate Fits(fl: Field, v: Value)
  {
    match fl
    case Str(n) => v.Chars? && |v.bytes| == n
    case Flag => v.Bool?
    case I8 => v.Int? && -0x80 <= v.i < 0x80
    case I32 => v.Int? && -0x8000_0000 <= v.i < 0x8000_0000
    case I64 => v.Int? && -0x8000_0000_0000_0000 <= v.i < 0x8000_0000_0000_0000
    case F32 => v.Float? && v.x.Single? && |v.x.bits| == 4
    case F64 => v.Float? && v.x.Double? && |v.x.bits| == 8
  }

  function UnpackField(fl: Field, bs: seq<byte>): (v: Value)
    requires |bs| == FieldSize(fl)
    ensures Fits(fl, v)
  {
    match fl
    case Str(_) => Chars(bs)
    case Flag => Bool(bs[0] != 0)
    case I8 => Int(Signed(bs))
    case I32 => assert Half(4) == 0x8000_0000; Int(Signed(bs))
    case I64 => assert Half(8) == 0x8000_0000_0000_0000; Int(Signed(bs))
    case F32 => Float(Single(bs))
    case F64 => Float(Double(bs))
  }

  /** `struct.unpack(fmt, bs)`: the fields in order, each from its own bytes. */
  function Unpack(fmt: seq<Field>, bs: seq<byte>): (vs: seq<Value>)
    requires |bs| == Size(fmt)
    ensures |vs| == |fmt|
    ensures forall k :: 0 <= k < |fmt| ==> Fits(fmt[k], vs[k])
  {
    if fmt == [] then []
    else
      var w := FieldSize(fmt[0]);
      [UnpackField(fmt[0], bs[..w])] + Unpack(fmt[1..], bs[w..])
  }

  /** Unpacking a format splits off its first field. */
  lemma UnpackCons(fl: Field, fmt: seq<Field>, bs: seq<byte>)
    requires |bs| == FieldSize(fl) + Size(fmt)
    ensures ([fl] + fmt)[1..] == fmt && Size([fl] + fmt) == |bs|
    ensures Unpack([fl] + fmt, bs) == [UnpackField(fl, bs[..FieldSize(fl)])] + Unpack(fmt, bs[FieldSize(fl)..])
  {
    assert ([fl] + fmt)[1..] == fmt;
  }

  /** The format `<nX`: n copies of one field. */
  function Repeat(fl: Field, n: nat): (fmt: seq<Field>)
    ensures |fmt| == n && Size(fmt) == n * FieldSize(fl)
    ensures forall k :: 0 <= k < n ==> fmt[k] == fl
  {
    if n == 0 then [] else [fl] + Repeat(fl, n - 1)
  }

  /** In `<nf`, value k is the binary32 held in bytes [4k, 4k + 4). */
  lemma {:induction false} UnpackSingles(n: nat, bs: seq<byte>, k: nat)
    requires |bs| == Size(Repeat(F32, n)) && k < n
    ensures 4 * k + 4 <= |bs|
    ensures Unpack(Repeat(F32, n), bs)[k] == Float(Single(bs[4 * k .. 4 * k + 4]))
  {
    assert Repeat(F32, n)[1..] == Repeat(F32, n - 1);
    if k > 0 {
      UnpackSingles(n - 1, bs[4..], k - 1);
      assert bs[4..][4 * (k - 1) .. 4 * (k - 1) + 4] == bs[4 * k .. 4 * k + 4];
    }
  }

  /** Bytes left in the file after cursor `pos` (none once the cursor is past the end). */
  function Avail(data: seq<byte>, pos: nat): nat
  {
    if pos <= |data| then |data| - pos else 0
  }

  /** `f.read(n)` at cursor `pos`: the next n bytes, or all that remain when fewer do. */
  function Take(data: seq<byte>, pos: nat, n: nat): (bs: seq<byte>)
    ensures |bs| == Min(n, Avail(data, pos))
    ensures |bs| > 0 ==> pos + |bs| <= |data| && bs == data[pos..pos + |bs|]
  {
    if pos >= |data| then [] else data[pos..pos + Min(n, |data| - pos)]
  }

  /** `convert(f, fmt)` with `f` a file at cursor `pos`: the unpacked values, or None when fewer
      than `Size(fmt)` bytes remain, together with the new cursor. */
  function ConvertAt(data: seq<byte>, pos: nat, fmt: seq<Field>): (r: (Option<seq<Value>>, nat))
    ensures r.0.None? <==> Avail(data, pos) < Size(fmt)
    ensures r.0.Some? ==> r.1 == pos + Size(fmt)
    ensures r.0.Some? && Size(fmt) > 0 ==> pos + Size(fmt) <= |data|
                                           && r.0.value == Unpack(fmt, data[pos..pos + Size(fmt)])
    ensures r.0.None? ==> r.1 == if pos <= |data| then |data| else pos
  {
    var bs := Take(data, pos, Size(fmt));
    if |bs| < Size(fmt) then (None, pos + |bs|) else (Some(Unpack(fmt, bs)), pos + |bs|)
  }

  /** A successful `convert` returns one value per field of its format. */
  lemma ConvertedCount(data: seq<byte>, pos: nat, fmt: seq<Field>)
    requires ConvertAt(data, pos, fmt).0.Some?
    ensures |ConvertAt(data, pos, fmt).0.value| == |fmt|
  {
  }

  /** From cursor `pos`, the bytes up to the first 0 byte, decoded as ASCII, and the cursor just
      past that 0. A byte >= 128 before the terminator raises; reaching the end of the file is
      `Unterminated` (the source then loops for ever, appending empty strings). */
  function TextAt(data: seq<byte>, pos: nat): (o: Outcome<string>)
    decreases Avail(data, pos)
    ensures o.Done? ==> pos < o.pos <= |data|
  {
    if pos >= |data| then Crash(Unterminated)
    else if data[pos] == 0 then Done("", pos + 1)
    else if data[pos] >= 0x80 then Crash(NonAscii)
    else
      match TextAt(data, pos + 1)
      case Crash(e) => Crash(e)
      case Done(s, p) => Done([data[pos] as char] + s, p)
  }

  /** A successful read ends at a 0 byte, after only ASCII non-zero bytes, which it returns
      as characters; a failed one is a non-ASCII byte or the end of the file. */
  lemma {:induction false} TextRead(data: seq<byte>, pos: nat)
    ensures var o := TextAt(data, pos);
      && (o.Done? ==> && data[o.pos - 1] == 0
                      && (forall k :: pos <= k < o.pos - 1 ==> 0 < data[k] < 0x80)
                      && o.value == Ascii(data[pos..o.pos - 1]))
      && (o.Crash? ==> o.error == NonAscii || o.error == Unterminated)
    decreases Avail(data, pos)
  {
    if pos < |data| && 0 < data[pos] < 0x80 {
      TextRead(data, pos + 1);
      var o := TextAt(data, pos + 1);
      if o.Done? {
        assert [data[pos] as char] + o.value == Ascii(data[pos..o.pos - 1]);
      }
    }
  }

  /** The bytes of `bs` as characters (code point = byte value). */
  function Ascii(bs: seq<byte>): (s: string)
    ensures |s| == |bs| && forall k :: 0 <= k < |bs| ==> s[k] == bs[k] as char
  {
    seq(|bs|, k requires 0 <= k < |bs| => bs[k] as char)
  }

  /** When a 0 byte at `j` follows only ASCII non-zero bytes, the read returns exactly those
      bytes and leaves the cursor just past the 0. */
  lemma {:induction false} TextFound(data: seq<byte>, pos: nat, j: nat)
    requires pos <= j < |data| && data[j] == 0
    requires forall k :: pos <= k < j ==> 0 < data[k] < 0x80
    ensures TextAt(data, pos) == Done(Ascii(data[pos..j]), j + 1)
    decreases j - pos
  {
    if pos < j {
      TextFound(data, pos + 1, j);
      assert [data[pos] as char] + Ascii(data[pos + 1..j]) == Ascii(data[pos..j]);
    }
  }

  /** `text + s` for a successful read of `s`; errors pass through. */
  function PrependText(text: string, o: Outcome<string>): Outcome<string>
  {
    match o
    case Done(s, p) => Done(text + s, p)
    case Crash(e) => Crash(e)
  }

  lemma PrependNothing(o: Outcome<string>)
    ensures PrependText("", o) == o
  {
    if o.Done? {
      assert "" + o.value == o.value;
    }
  }

  lemma PrependMore(text: string, c: char, o: Outcome<string>)
    ensures PrependText(text, PrependText([c], o)) == PrependText(text + [c], o)
  {
    if o.Done? {
      assert text + ([c] + o.value) == (text + [c]) + o.value;
    }
  }

  /** An open file: its bytes and the cursor. */
  class Stream {
    const data: seq<byte>
    var pos: nat

    constructor Open(contents: seq<byte>)
      ensures data == contents && pos == 0
    {
      data := contents;
      pos := 0;
    }

    /** `f.read(n)`. */
    method Read(n: nat) returns (bs: seq<byte>)
      modifies this
      ensures bs == Take(data, old(pos), n) && pos == old(pos) + |bs|
    {
      bs := Take(data, pos, n);
      pos := pos + |bs|;
    }

    /** `f.seek(p)` (absolute; a cursor past the end is allowed). */
    method Seek(p: nat)
      modifies this
      ensures pos == p
    {
      pos := p;
    }
  }

  /** `convert(f, fmt)` on the file `f`. */
  method Convert(f: Stream, fmt: seq<Field>) returns (r: Option<seq<Value>>)
    modifies f
    ensures (r, f.pos) == ConvertAt(f.data, old(f.pos), fmt)
  {
    var data := f.Read(Size(fmt));
    if |data| < Size(fmt) {
      return None;
    }
    r := Some(Unpack(fmt, data));
  }

  /** `read_text(f)`: reads one byte at a time until a 0 byte. */
  method ReadText(f: Stream) returns (r: Result<string>)
    modifies f
    ensures Returned(TextAt(f.data, old(f.pos)), r, f.pos)
  {
    var text := "";
    PrependNothing(TextAt(f.data, f.pos));
    while true
      invariant TextAt(f.data, old(f.pos)) == PrependText(text, TextAt(f.data, f.pos))
      decreases Avail(f.data, f.pos)
    {
      if f.pos >= |f.data| {
        return Err(Unterminated);
      }
      var b := f.Read(1);
      if b[0] == 0 {
        assert text + "" == text;
        return Ok(text);
      }
      if b[0] >= 0x80 {
        return Err(NonAscii);
      }
      PrependMore(text, b[0] as char, TextAt(f.data, f.pos));
      text := text + [b[0] as char];
    }
  }
}
