/** Script parsing, data pushes and FindAndDelete. */
module ScriptOps {
  import opened Bytes
  import opened Opcodes

  /** One step of the instruction iterator: the end, a truncated push, or an instruction of `size` bytes. */
  datatype Parsed = End | BadOpcode | Op(opcode: byte, data: seq<byte>, size: nat)

  function SizeLength(opcode: byte): nat {
    if opcode == OP_PUSHDATA1 then 1 else if opcode == OP_PUSHDATA2 then 2 else 4
  }

  /** Take `len` payload bytes at `cursor`, or fail if the script is too short. */
  function Payload(s: seq<byte>, opcode: byte, cursor: nat, len: nat): Parsed
    requires cursor <= |s|
  {
    if |s| - cursor < len then BadOpcode else Op(opcode, s[cursor..cursor + len], cursor + len)
  }

  function First(s: seq<byte>): (p: Parsed)
    ensures p.Op? ==> 0 < p.size <= |s|
  {
    if s == [] then End
    else
      var opcode := s[0];
      if opcode > OP_PUSHDATA4 then Op(opcode, [], 1)
      else if opcode < OP_PUSHDATA1 then Payload(s, opcode, 1, opcode)
      else
        var n := SizeLength(opcode);
        if |s| - 1 < n then BadOpcode else Payload(s, opcode, 1 + n, LeValue(s[1..1 + n]))
  }

  /** `Instructions`: a cursor over a script. */
  class Instructions {
    const script: seq<byte>
    var pos: nat

    constructor (script: seq<byte>)
      ensures this.script == script && pos == 0
    {
      this.script := script;
      this.pos := 0;
    }

    method Next() returns (item: Parsed)
      requires pos <= |script|
      modifies this
      ensures item == First(script[old(pos)..])
      ensures pos <= |script|
      ensures item.Op? ==> pos == old(pos) + item.size
      ensures !item.Op? ==> pos == |script|
    {
      hide LeValue;
      if pos >= |script| { return End; }
      var opcode := script[pos];
      var cursor := pos + 1;
      var len := 0;
      if opcode <= OP_PUSHDATA4 {
        if opcode < OP_PUSHDATA1 {
          len := opcode;
        } else {
          var sizeLen := SizeLength(opcode);
          if |script| - cursor < sizeLen {
            pos := |script|;
            return BadOpcode;
          }
          SliceOfSuffix(script, pos, 1, 1 + sizeLen);
          len := LeValue(script[cursor..cursor + sizeLen]);
          cursor := cursor + sizeLen;
        }
        if |script| - cursor < len {
          pos := |script|;
          return BadOpcode;
        }
      }
      var data := script[cursor..cursor + len];
      SliceOfSuffix(script, pos, cursor - pos, cursor - pos + len);
      item := Op(opcode, data, cursor + len - pos);
      pos := cursor + len;
    }
  }

  // ------------------------------------------------------- scripts as chunks

  /** A script split at instruction boundaries, with whatever does not parse at the end. */
  datatype Split = Split(chunks: seq<seq<byte>>, tail: seq<byte>)

  function Parse(s: seq<byte>): Split
    decreases |s|
  {
    match First(s)
    case Op(_, _, n) => var rest := Parse(s[n..]); Split([s[..n]] + rest.chunks, rest.tail)
    case _ => Split([], s)
  }

  function Flatten(chunks: seq<seq<byte>>): seq<byte> {
    if chunks == [] then [] else chunks[0] + Flatten(chunks[1..])
  }

  function Without(chunks: seq<seq<byte>>, c: seq<byte>): seq<seq<byte>> {
    if chunks == [] then []
    else if chunks[0] == c then Without(chunks[1..], c)
    else [chunks[0]] + Without(chunks[1..], c)
  }

  function Occurrences(chunks: seq<seq<byte>>, c: seq<byte>): nat {
    if chunks == [] then 0 else (if chunks[0] == c then 1 else 0) + Occurrences(chunks[1..], c)
  }

  ghost predicate IsInstruction(c: seq<byte>) { First(c).Op? && First(c).size == |c| }

  /** What FindAndDelete is for: drop every instruction equal to `c`, keep the rest and the tail. */
  function Stripped(s: seq<byte>, c: seq<byte>): seq<byte> {
    Flatten(Without(Parse(s).chunks, c)) + Parse(s).tail
  }

  /** Reading an instruction looks at its own bytes only. */
  lemma FirstIsLocal(c: seq<byte>, s: seq<byte>)
    requires IsInstruction(c) && c <= s
    ensures First(s) == First(c)
  {
    var opcode := c[0];
    assert s[0] == opcode;
    if opcode <= OP_PUSHDATA4 {
      if opcode < OP_PUSHDATA1 {
        assert s[1..1 + opcode] == c[1..1 + opcode];
      } else {
        var n := SizeLength(opcode);
        assert s[1..1 + n] == c[1..1 + n];
        var len := LeValue(c[1..1 + n]);
        assert s[1 + n..1 + n + len] == c[1 + n..1 + n + len];
      }
    }
  }

  lemma FirstChunk(s: seq<byte>)
    requires First(s).Op?
    ensures IsInstruction(s[..First(s).size])
  {
    var c := s[..First(s).size];
    var opcode := s[0];
    if opcode <= OP_PUSHDATA4 && opcode >= OP_PUSHDATA1 {
      var n := SizeLength(opcode);
      assert s[1..1 + n] == c[1..1 + n];
    }
  }

  ghost predicate Instrs(chunks: seq<seq<byte>>) { forall c :: c in chunks ==> IsInstruction(c) }

  lemma FlattenCons(c: seq<byte>, chunks: seq<seq<byte>>)
    ensures Flatten([c] + chunks) == c + Flatten(chunks)
  {
    assert ([c] + chunks)[1..] == chunks;
  }

  lemma {:induction false} ParseChunks(s: seq<byte>)
    ensures Instrs(Parse(s).chunks)
    ensures !First(Parse(s).tail).Op?
    ensures Flatten(Parse(s).chunks) + Parse(s).tail == s
    decreases |s|
  {
    if First(s).Op? {
      hide *;
      FirstSize(s);
      var n := First(s).size;
      FirstChunk(s);
      ParseChunks(s[n..]);
      ParseCons(s);
      InstrsCons(s[..n], Parse(s[n..]).chunks);
      FlattenFront(s[..n], Parse(s[n..]).chunks, Parse(s[n..]).tail, s[n..]);
      assert s == s[..n] + s[n..];
    } else {
      assert Parse(s) == Split([], s);
      assert Flatten([]) + s == s;
    }
  }

  lemma FlattenFront(c: seq<byte>, chunks: seq<seq<byte>>, tail: seq<byte>, rest: seq<byte>)
    requires Flatten(chunks) + tail == rest
    ensures Flatten([c] + chunks) + tail == c + rest
  {
    FlattenCons(c, chunks);
    hide *;
    assert c + Flatten(chunks) + tail == c + (Flatten(chunks) + tail);
  }

  lemma ParseCons(s: seq<byte>)
    requires First(s).Op?
    ensures var rest := Parse(s[First(s).size..]);
      Parse(s) == Split([s[..First(s).size]] + rest.chunks, rest.tail)
  {
    hide First;
  }

  lemma InstrsCons(c: seq<byte>, chunks: seq<seq<byte>>)
    requires IsInstruction(c) && Instrs(chunks)
    ensures Instrs([c] + chunks)
  {
    hide IsInstruction;
  }

  lemma FirstSize(s: seq<byte>)
    requires First(s).Op?
    ensures 0 < First(s).size <= |s|
  {
  }

  /** Parsing is the inverse of concatenating instructions before an unparsable tail. */
  lemma {:induction false} ParseFlatten(chunks: seq<seq<byte>>, tail: seq<byte>)
    requires Instrs(chunks)
    requires !First(tail).Op?
    ensures Parse(Flatten(chunks) + tail) == Split(chunks, tail)
  {
    if chunks == [] {
      assert Flatten(chunks) + tail == tail;
    } else {
      var c, rest := chunks[0], chunks[1..];
      var s := Flatten(chunks) + tail;
      assert chunks == [c] + rest;
      assert IsInstruction(c) && First(c).size == |c|;
      hide *;
      InstrsRest(chunks);
      FlattenFront(c, rest, tail, Flatten(rest) + tail);
      FirstIsLocal(c, s);
      ParseCons(s);
      assert s[..|c|] == c && s[|c|..] == Flatten(rest) + tail;
      ParseFlatten(rest, tail);
    }
  }

  lemma InstrsRest(chunks: seq<seq<byte>>)
    requires Instrs(chunks) && chunks != []
    ensures Instrs(chunks[1..])
  {
    hide IsInstruction;
  }

  lemma {:induction false} WithoutFacts(chunks: seq<seq<byte>>, c: seq<byte>)
    ensures forall d :: d in Without(chunks, c) <==> d in chunks && d != c
    ensures Without(Without(chunks, c), c) == Without(chunks, c)
    ensures Occurrences(Without(chunks, c), c) == 0
    ensures |Flatten(Without(chunks, c))| + Occurrences(chunks, c) * |c| == |Flatten(chunks)|
  {
    if chunks != [] {
      WithoutFacts(chunks[1..], c);
      var w := Without(chunks[1..], c);
      if chunks[0] == c {
        assert (1 + Occurrences(chunks[1..], c)) * |c| == |c| + Occurrences(chunks[1..], c) * |c|;
      } else {
        assert ([chunks[0]] + w)[1..] == w;
      }
    }
  }

  /** Stripping is idempotent and leaves no occurrence behind; each removal takes exactly |c| bytes. */
  lemma StrippedFacts(s: seq<byte>, c: seq<byte>)
    ensures Stripped(Stripped(s, c), c) == Stripped(s, c)
    ensures Occurrences(Parse(Stripped(s, c)).chunks, c) == 0
    ensures |Stripped(s, c)| + Occurrences(Parse(s).chunks, c) * |c| == |s|
  {
    var p := Parse(s);
    ParseChunks(s);
    WithoutFacts(p.chunks, c);
    var w := Without(p.chunks, c);
    ParseFlatten(w, p.tail);
  }

  // ------------------------------------------------------------ FindAndDelete

  lemma {:induction false} StrippedStep(s: seq<byte>, c: seq<byte>)
    requires First(s).Op?
    ensures var n := First(s).size;
      && Stripped(s, c) == (if s[..n] == c then [] else s[..n]) + Stripped(s[n..], c)
      && Occurrences(Parse(s).chunks, c) == (if s[..n] == c then 1 else 0) + Occurrences(Parse(s[n..]).chunks, c)
  {
    var n := First(s).size;
    var rest := Parse(s[n..]);
    assert Parse(s).chunks[1..] == rest.chunks;
    if s[..n] != c {
      assert Without(Parse(s).chunks, c)[1..] == Without(rest.chunks, c);
    }
  }

  lemma {:induction false} ShortScript(s: seq<byte>, c: seq<byte>)
    requires |s| < |c|
    ensures Stripped(s, c) == s && Occurrences(Parse(s).chunks, c) == 0
    decreases |s|
  {
    if First(s).Op? {
      hide *;
      FirstSize(s);
      var n := First(s).size;
      ShortScript(s[n..], c);
      StrippedStep(s, c);
      assert |s[..n]| < |c|;
      assert s == s[..n] + s[n..];
    } else {
      assert Parse(s) == Split([], s);
    }
  }

  /** The loop invariant of `find_and_delete`: what is kept so far, then what stripping the rest gives. */
  ghost predicate Progress(script: seq<byte>, push: seq<byte>, kept: seq<byte>, found: nat, pos: nat)
    requires pos <= |script|
  {
    && Stripped(script, push) == kept + Stripped(script[pos..], push)
    && Occurrences(Parse(script).chunks, push) == found + Occurrences(Parse(script[pos..]).chunks, push)
  }

  lemma ProgressStart(script: seq<byte>, push: seq<byte>)
    ensures Progress(script, push, [] + script[0..0], 0, 0)
  {
    assert script[0..] == script;
    assert [] + script[0..0] == [];
  }

  lemma ProgressStep(script: seq<byte>, push: seq<byte>, kept: seq<byte>, found: nat, pos: nat)
    requires pos <= |script| && Progress(script, push, kept, found, pos) && First(script[pos..]).Op?
    ensures var n := First(script[pos..]).size;
      var c := script[pos..pos + n];
      if c == push then Progress(script, push, kept, found + 1, pos + n)
      else Progress(script, push, kept + c, found, pos + n)
  {
    hide First, Parse, Stripped;
    var rest := script[pos..];
    var n := First(rest).size;
    StrippedStep(rest, push);
    assert rest[..n] == script[pos..pos + n];
    assert rest[n..] == script[pos + n..];
  }

  lemma ProgressDone(script: seq<byte>, push: seq<byte>, kept: seq<byte>, found: nat, pos: nat)
    requires pos <= |script| && Progress(script, push, kept, found, pos)
    requires pos + |push| > |script| || !First(script[pos..]).Op?
    ensures Stripped(script, push) == kept + script[pos..]
    ensures Occurrences(Parse(script).chunks, push) == found
  {
    var rest := script[pos..];
    if pos + |push| > |script| {
      ShortScript(rest, push);
    } else {
      assert Parse(rest) == Split([], rest);
      assert Stripped(rest, push) == rest;
    }
  }

  lemma MatchIsInstruction(script: seq<byte>, push: seq<byte>, pos: nat)
    requires IsInstruction(push) && pos + |push| <= |script|
    ensures script[pos..pos + |push|] == push ==> First(script[pos..]).Op? && First(script[pos..]).size == |push|
  {
    if script[pos..pos + |push|] == push {
      assert push <= script[pos..];
      FirstIsLocal(push, script[pos..]);
    }
  }

  /**
   * `find_and_delete`. Only matches that start on an instruction boundary count, so for a pattern that
   * is itself one instruction the byte comparison amounts to comparing instructions.
   */
  method FindAndDelete(script: seq<byte>, push: seq<byte>) returns (result: seq<byte>, found: nat)
    requires IsInstruction(push)
    ensures result == Stripped(script, push)
    ensures found == Occurrences(Parse(script).chunks, push)
    ensures |result| + found * |push| == |script|
  {
    hide First, Parse, Stripped, Progress;
    StrippedFacts(script, push);
    if |script| < |push| {
      ShortScript(script, push);
      return script, 0;
    }
    result, found := [], 0;
    var lastKept, pos := 0, 0;
    assert script[0..] == script;
    ProgressStart(script, push);
    while pos + |push| <= |script|
      invariant lastKept <= pos <= |script|
      invariant Progress(script, push, result + script[lastKept..pos], found, pos)
      decreases |script| - pos
    {
      MatchIsInstruction(script, push, pos);
      ghost var kept := result + script[lastKept..pos];
      if script[pos..pos + |push|] == push {
        ProgressStep(script, push, kept, found, pos);
        result := result + script[lastKept..pos];
        pos := pos + |push|;
        lastKept := pos;
        found := found + 1;
        assert result + script[lastKept..pos] == kept;
        continue;
      }
      var item := First(script[pos..]);
      if !item.Op? { break; }
      ProgressStep(script, push, kept, found, pos);
      assert result + script[lastKept..pos + item.size] == kept + script[pos..pos + item.size];
      pos := pos + item.size;
    }
    ProgressDone(script, push, result + script[lastKept..pos], found, pos);
    assert result + script[lastKept..pos] + script[pos..] == result + script[lastKept..];
    result := result + script[lastKept..];
  }

  // -------------------------------------------------------------- data pushes

  function PushPrefix(len: nat): seq<byte>
  {
    if len < OP_PUSHDATA1 then [len]
    else if len <= 0xff then [OP_PUSHDATA1, len]
    else if len <= 0xffff then [OP_PUSHDATA2] + LeBytes(2, len)
    else [OP_PUSHDATA4] + LeBytes(4, len)
  }

  /** `push_data`: the shortest length prefix, then the bytes. */
  function PushData(data: seq<byte>): seq<byte> { PushPrefix(|data|) + data }

  method AppendPush(script: seq<byte>, data: seq<byte>) returns (extended: seq<byte>)
    ensures extended == script + PushData(data)
  {
    extended := script;
    if |data| < OP_PUSHDATA1 {
      extended := extended + [|data|];
    } else if |data| <= 0xff {
      extended := extended + [OP_PUSHDATA1];
      extended := extended + [|data|];
    } else if |data| <= 0xffff {
      extended := extended + [OP_PUSHDATA2];
      extended := extended + LeBytes(2, |data|);
    } else {
      extended := extended + [OP_PUSHDATA4];
      extended := extended + LeBytes(4, |data|);
    }
    extended := extended + data;
  }

  /** A push reads back as one instruction carrying exactly its data (lengths that fit the u32 cast). */
  lemma PushReadsBack(data: seq<byte>)
    requires |data| < 0x1_0000_0000
    ensures First(PushData(data)).Op? && First(PushData(data)).data == data
    ensures IsInstruction(PushData(data))
  {
    SmallPowers();
    var s, n := PushData(data), |data|;
    if n < OP_PUSHDATA1 {
      assert s[1..1 + n] == data;
    } else if n <= 0xff {
      assert s[1..2] == [n];
      assert Value(256, [n]) == n + 256 * Value(256, []);
      assert s[2..2 + n] == data;
    } else if n <= 0xffff {
      LeBytesValue(2, n);
      assert s[1..3] == LeBytes(2, n);
      assert s[3..3 + n] == data;
    } else {
      LeBytesValue(4, n);
      assert s[1..5] == LeBytes(4, n);
      assert s[5..5 + n] == data;
    }
  }

  /** How each form of push is read: the length in the opcode, or in one, two or four little-endian bytes behind it. */
  lemma DirectForm(data: seq<byte>, rest: seq<byte>)
    requires |data| <= 75
    ensures First([|data|] + data + rest) == Op(|data|, data, 1 + |data|)
  {
    assert ([|data|] + data + rest)[1..1 + |data|] == data;
  }

  lemma LengthForms(data: seq<byte>, rest: seq<byte>)
    ensures |data| <= 0xff ==> First([0x4c] + [|data|] + data + rest) == Op(0x4c, data, 2 + |data|)
    ensures |data| <= 0xffff ==> First([0x4d] + LeBytes(2, |data|) + data + rest) == Op(0x4d, data, 3 + |data|)
    ensures |data| <= 0xffff_ffff ==> First([0x4e] + LeBytes(4, |data|) + data + rest) == Op(0x4e, data, 5 + |data|)
  {
    hide *;
    SmallPowers();
    Widths();
    if |data| <= 0xff {
      OneByte(|data|);
      ReadsLength(0x4c, [|data|], data, rest);
    }
    if |data| <= 0xffff {
      LeBytesValue(2, |data|);
      ReadsLength(0x4d, LeBytes(2, |data|), data, rest);
    }
    if |data| <= 0xffff_ffff {
      LeBytesValue(4, |data|);
      ReadsLength(0x4e, LeBytes(4, |data|), data, rest);
    }
  }

  lemma Widths()
    ensures SizeLength(0x4c) == 1 && SizeLength(0x4d) == 2 && SizeLength(0x4e) == 4
    ensures OP_PUSHDATA1 == 0x4c && OP_PUSHDATA4 == 0x4e
  {
  }

  lemma OneByte(n: byte)
    ensures LeValue([n]) == n
  {
    assert Value(256, [n]) == n + 256 * Value(256, []);
  }

  lemma ReadsLength(opcode: byte, size: seq<byte>, data: seq<byte>, rest: seq<byte>)
    requires OP_PUSHDATA1 <= opcode <= OP_PUSHDATA4 && |size| == SizeLength(opcode) && LeValue(size) == |data|
    ensures First([opcode] + size + data + rest) == Op(opcode, data, 1 + |size| + |data|)
  {
    hide LeValue;
    var s := [opcode] + size + data + rest;
    assert s[1..1 + |size|] == size;
    assert s[1 + |size|..1 + |size| + |data|] == data;
  }

  /** Other opcodes are one byte, and a push that runs past the end is malformed. */
  lemma OtherForms(opcode: byte, rest: seq<byte>)
    ensures opcode > 0x4e ==> First([opcode] + rest) == Op(opcode, [], 1)
    ensures opcode <= 75 && |rest| < opcode ==> First([opcode] + rest) == BadOpcode
    ensures First([]) == End
  {
  }

  /** Removing a signature's push from a scriptCode, as the legacy signature hash does. */
  method StripSignature(scriptCode: seq<byte>, sig: seq<byte>) returns (cleaned: seq<byte>, found: nat)
    requires |sig| < 0x1_0000_0000
    ensures cleaned == Stripped(scriptCode, PushData(sig))
    ensures found == Occurrences(Parse(scriptCode).chunks, PushData(sig))
  {
    PushReadsBack(sig);
    var push := AppendPush([], sig);
    assert push == PushData(sig);
    cleaned, found := FindAndDelete(scriptCode, push);
  }

  /** Values that have an opcode of their own: the empty string, 1..16 and -1. */
  predicate HasOwnOpcode(data: seq<byte>) {
    |data| == 1 && (1 <= data[0] <= 16 || data[0] == 0x81)
  }

  predicate CheckMinimalPush(data: seq<byte>, opcode: byte)
  {
    if data == [] then opcode == 0
    else if |data| == 1 && 1 <= data[0] <= 16 then opcode as int == OP_1 as int + data[0] as int - 1
    else if |data| == 1 && data[0] == 0x81 then opcode == OP_1NEGATE
    else if |data| <= 75 then opcode == |data|
    else if |data| <= 255 then opcode == OP_PUSHDATA1
    else if |data| <= 65535 then opcode == OP_PUSHDATA2
    else true
  }

  /** Among the data-push instructions the minimality rule accepts exactly what `push_data` writes. */
  lemma MinimalPushIsPushData(c: seq<byte>)
    requires IsInstruction(c) && c[0] <= OP_PUSHDATA4
    ensures CheckMinimalPush(First(c).data, c[0]) <==> c == PushData(First(c).data) && !HasOwnOpcode(First(c).data)
  {
    var data, opcode := First(c).data, c[0];
    if opcode < OP_PUSHDATA1 {
      assert c == [opcode] + data;
    } else {
      var n := SizeLength(opcode);
      var size := c[1..1 + n];
      assert c == [opcode] + size + data;
      LeValueBound(size);
      LeValueBytes(size);
      SmallPowers();
    }
  }
}
