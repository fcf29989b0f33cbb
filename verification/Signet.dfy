/** BIP 325: the signet solution, and the message it signs. */
module Signet {
  import opened Bytes
  import opened Wire
  import opened Transaction
  import Ops = ScriptOps
  import Merkle

  type Tag = t: seq<byte> | |t| == 4 witness [0, 0, 0, 0]

  const SIGNET_HEADER: Tag := [0xec, 0xc7, 0xda, 0xa2]
  const MINIMUM_WITNESS_COMMITMENT: nat := 38
  const WITNESS_COMMITMENT_PREFIX: seq<byte> := [0x6a, 0x24, 0xaa, 0x21, 0xa9, 0xed]

  // ------------------------------------------------------------ the tagged section

  /** A push that carries the tag and something after it. */
  predicate Tagged(header: Tag, c: seq<byte>) {
    Ops.First(c).Op? && |Ops.First(c).data| > |header| && header <= Ops.First(c).data
  }

  /** The first tagged push of a list of instructions, without its tag. */
  function Section(header: Tag, chunks: seq<seq<byte>>): Option<seq<byte>> {
    if chunks == [] then None
    else if Tagged(header, chunks[0]) then Some(Ops.First(chunks[0]).data[|header|..])
    else Section(header, chunks[1..])
  }

  /** The instructions with that push cut down to its tag. */
  function Blanked(header: Tag, chunks: seq<seq<byte>>): seq<seq<byte>> {
    if chunks == [] then []
    else if Tagged(header, chunks[0]) then [[|header|] + header] + chunks[1..]
    else [chunks[0]] + Blanked(header, chunks[1..])
  }

  ghost predicate NoneTagged(header: Tag, chunks: seq<seq<byte>>) {
    forall c :: c in chunks ==> !Tagged(header, c)
  }

  /** What the loop has yet to add: nothing is blanked once a section was found. */
  ghost function Remaining(header: Tag, found: bool, s: seq<byte>): seq<byte> {
    var chunks := Ops.Parse(s).chunks;
    Ops.Flatten(if found then chunks else Blanked(header, chunks))
  }

  ghost function Found(header: Tag, section: Option<seq<byte>>, s: seq<byte>): Option<seq<byte>> {
    if section.Some? then section else Section(header, Ops.Parse(s).chunks)
  }

  lemma RemainingStep(header: Tag, section: Option<seq<byte>>, s: seq<byte>)
    requires Ops.First(s).Op?
    ensures var n := Ops.First(s).size; var c := s[..n]; var hit := section.None? && Tagged(header, c);
      var data := Ops.First(s).data;
      && Ops.First(c) == Ops.First(s)
      && Remaining(header, section.Some?, s)
        == (if hit then [|header|] + header else c) + Remaining(header, section.Some? || hit, s[n..])
      && Found(header, section, s) == Found(header, if hit then Some(data[|header|..]) else section, s[n..])
  {
    hide Ops.First, Tagged;
    var n := Ops.First(s).size;
    Ops.FirstChunk(s);
    Ops.FirstIsLocal(s[..n], s);
    var rest := Ops.Parse(s[n..]).chunks;
    var all := Ops.Parse(s).chunks;
    assert all == [s[..n]] + rest && all[1..] == rest;
    Ops.FlattenCons(s[..n], rest);
    Ops.FlattenCons([|header|] + header, rest);
    Ops.FlattenCons(s[..n], Blanked(header, rest));
  }

  lemma RemainingEnd(header: Tag, section: Option<seq<byte>>, s: seq<byte>)
    requires !Ops.First(s).Op?
    ensures Remaining(header, section.Some?, s) == [] && Found(header, section, s) == section
  {
  }

  /**
   * `fetch_and_clear_commitment_section`: take the first tagged push out of the script and leave the bare tag;
   * a malformed tail is dropped.
   */
  method FetchAndClear(header: Tag, script: seq<byte>) returns (section: Option<seq<byte>>, modified: seq<byte>)
    ensures section == Section(header, Ops.Parse(script).chunks)
    ensures modified == Ops.Flatten(Blanked(header, Ops.Parse(script).chunks))
  {
    hide Ops.First, Ops.Parse, Remaining, Found, Tagged;
    var pos := 0;
    section, modified := None, [];
    assert script[0..] == script;
    ghost var target := Remaining(header, false, script);
    ghost var wanted := Found(header, None, script);
    Targets(header, script);
    assert modified + target == target;
    while pos < |script|
      invariant 0 <= pos <= |script|
      invariant target == modified + Remaining(header, section.Some?, script[pos..])
      invariant wanted == Found(header, section, script[pos..])
      decreases |script| - pos
    {
      ghost var rest := script[pos..];
      var item := Ops.First(script[pos..]);
      if !item.Op? {
        RemainingEnd(header, section, rest);
        break;
      }
      RemainingStep(header, section, rest);
      var chunk := script[pos..pos + item.size];
      assert rest[..item.size] == chunk;
      assert rest[item.size..] == script[pos + item.size..];
      pos := pos + item.size;
      ghost var before := modified;
      ghost var tail := Remaining(header, section.Some? || Tagged(header, chunk), script[pos..]);
      if section.None? && |item.data| > |header| && item.data[..|header|] == header {
        TaggedMeans(header, chunk);
        section := Some(item.data[|header|..]);
        modified := modified + [|header|] + header;
        assert before + (([|header|] + header) + tail) == modified + tail;
      } else {
        TaggedMeans(header, chunk);
        modified := modified + chunk;
      }
    }
    if pos >= |script| {
      assert script[pos..] == [];
      EmptyEnd(header, section);
    }
  }

  lemma TaggedMeans(header: Tag, c: seq<byte>)
    ensures Tagged(header, c) <==>
      Ops.First(c).Op? && |Ops.First(c).data| > |header| && Ops.First(c).data[..|header|] == header
  {
  }

  lemma Targets(header: Tag, script: seq<byte>)
    ensures Remaining(header, false, script) == Ops.Flatten(Blanked(header, Ops.Parse(script).chunks))
    ensures Found(header, None, script) == Section(header, Ops.Parse(script).chunks)
  {
  }

  lemma EmptyEnd(header: Tag, section: Option<seq<byte>>)
    ensures Remaining(header, section.Some?, []) == [] && Found(header, section, []) == section
  {
  }

  // ------------------------------------------------- what blanking does not depend on

  lemma FlattenAround(before: seq<seq<byte>>, c: seq<byte>, chunks: seq<seq<byte>>, tail: seq<byte>)
    ensures Ops.Flatten(before + [c] + chunks) + tail == Ops.Flatten(before) + c + (Ops.Flatten(chunks) + tail)
  {
    FlattenAppend(before + [c], chunks);
    FlattenAppend(before, [c]);
    Ops.FlattenCons(c, []);
    assert [c] + [] == [c] && c + Ops.Flatten([]) == c;
    hide Ops.Flatten;
  }

  lemma ParseAppend(before: seq<seq<byte>>, c: seq<byte>, rest: seq<byte>)
    requires Ops.Instrs(before) && Ops.IsInstruction(c)
    ensures Ops.Parse(Ops.Flatten(before) + c + rest).chunks == before + [c] + Ops.Parse(rest).chunks
  {
    hide Ops.First, Ops.Flatten, Ops.Parse, Ops.IsInstruction;
    var p := Ops.Parse(rest);
    Ops.ParseChunks(rest);
    FlattenAround(before, c, p.chunks, p.tail);
    Ops.ParseFlatten(before + [c] + p.chunks, p.tail);
  }

  lemma {:induction false} FlattenAppend(a: seq<seq<byte>>, b: seq<seq<byte>>)
    ensures Ops.Flatten(a + b) == Ops.Flatten(a) + Ops.Flatten(b)
  {
    if a == [] {
      assert a + b == b;
    } else {
      FlattenAppend(a[1..], b);
      assert a + b == [a[0]] + (a[1..] + b);
      Ops.FlattenCons(a[0], a[1..] + b);
    }
  }

  lemma {:induction false} FirstTaggedDecides(
    header: Tag, before: seq<seq<byte>>, c: seq<byte>, after: seq<seq<byte>>)
    requires NoneTagged(header, before) && Tagged(header, c)
    ensures Section(header, before + [c] + after) == Some(Ops.First(c).data[|header|..])
    ensures Blanked(header, before + [c] + after) == before + [Bare(header)] + after
  {
    hide Tagged, Ops.First;
    var all := before + [c] + after;
    if before == [] {
      assert all[1..] == after;
    } else {
      assert all[1..] == before[1..] + [c] + after;
      FirstTaggedDecides(header, before[1..], c, after);
    }
  }

  /** What a blanked section leaves behind, and what an unsigned block carries: a push of the tag alone. */
  function Bare(header: Tag): seq<byte> { [|header|] + header }

  /**
   * A script with a place for the solution at an instruction boundary: `c` is its first tagged push, or it is the
   * bare tag and no push is tagged.
   */
  ghost predicate Carries(header: Tag, script: seq<byte>, before: seq<seq<byte>>, c: seq<byte>, rest: seq<byte>) {
    && Ops.Instrs(before) && NoneTagged(header, before)
    && Ops.IsInstruction(c)
    && (Tagged(header, c) || (c == Bare(header) && NoneTagged(header, Ops.Parse(rest).chunks)))
    && script == Ops.Flatten(before) + c + rest
  }

  lemma BareIsInstruction(header: Tag)
    ensures Ops.IsInstruction(Bare(header)) && !Tagged(header, Bare(header))
  {
    assert Bare(header)[1..5] == header;
    assert Ops.First(Bare(header)) == Ops.Op(4, header, 5);
  }

  lemma {:induction false} NothingBlanked(header: Tag, chunks: seq<seq<byte>>)
    requires NoneTagged(header, chunks)
    ensures Section(header, chunks) == None && Blanked(header, chunks) == chunks
  {
    hide Tagged;
    if chunks != [] { NothingBlanked(header, chunks[1..]); }
  }

  /** The payload comes out, if any, and what is left over does not depend on it or on how it was pushed. */
  lemma BlankingForgets(header: Tag, script: seq<byte>, before: seq<seq<byte>>, c: seq<byte>, rest: seq<byte>)
    requires Carries(header, script, before, c, rest)
    ensures Section(header, Ops.Parse(script).chunks)
      == if Tagged(header, c) then Some(Ops.First(c).data[|header|..]) else None
    ensures Blanked(header, Ops.Parse(script).chunks) == before + [Bare(header)] + Ops.Parse(rest).chunks
  {
    hide Ops.First, Ops.Parse, Tagged;
    ParseAppend(before, c, rest);
    var after := Ops.Parse(rest).chunks;
    if Tagged(header, c) {
      FirstTaggedDecides(header, before, c, after);
    } else {
      BareIsInstruction(header);
      NothingBlanked(header, before + [c] + after);
    }
  }

  /** A push of the tag and any nonempty payload, in its shortest form, is a tagged push of that payload. */
  lemma PushIsTagged(header: Tag, payload: seq<byte>)
    requires 0 < |payload| < 0x1_0000_0000 - 4
    ensures Ops.IsInstruction(Ops.PushData(header + payload)) && Tagged(header, Ops.PushData(header + payload))
    ensures Ops.First(Ops.PushData(header + payload)).data[|header|..] == payload
  {
    hide Ops.First, Ops.PushData;
    Ops.PushReadsBack(header + payload);
  }

  // ------------------------------------------------------ the commitment output

  predicate IsCommitment(script: seq<byte>) {
    |script| >= MINIMUM_WITNESS_COMMITMENT && script[..6] == WITNESS_COMMITMENT_PREFIX
  }

  /** The last matching output wins. */
  function CommitmentIndex(outputs: seq<TxOut>): (r: Option<nat>)
    ensures r.Some? ==> r.value < |outputs| && IsCommitment(outputs[r.value].scriptPubkey)
    ensures r.Some? ==> forall j :: r.value < j < |outputs| ==> !IsCommitment(outputs[j].scriptPubkey)
    ensures r.None? ==> forall j :: 0 <= j < |outputs| ==> !IsCommitment(outputs[j].scriptPubkey)
  {
    if outputs == [] then None
    else if IsCommitment(outputs[|outputs| - 1].scriptPubkey) then Some(|outputs| - 1)
    else CommitmentIndex(outputs[..|outputs| - 1])
  }

  lemma CommitmentChunks(script: seq<byte>)
    requires IsCommitment(script)
    ensures var chunks := Ops.Parse(script).chunks;
      && |chunks| >= 2 && |chunks[0]| == 1 && |chunks[1]| == 37
      && chunks[0] + chunks[1] == script[..38] && !Tagged(SIGNET_HEADER, chunks[0]) && !Tagged(SIGNET_HEADER, chunks[1])
  {
    hide LeValue;
    assert script[0] == 0x6a && script[..6][1] == 0x24 && script[..6][2] == 0xaa;
    assert Ops.First(script) == Ops.Op(0x6a, [], 1);
    var s := script[1..];
    assert s[0] == 0x24;
    assert Ops.First(s) == Ops.Op(0x24, s[1..37], 37);
    var c := s[..37];
    assert c[0] == 0x24 && c[1..37] == s[1..37];
    assert Ops.First(c) == Ops.Op(0x24, c[1..37], 37);
    assert c[1] == 0xaa;
    assert Ops.Parse(script).chunks == [script[..1]] + ([c] + Ops.Parse(s[37..]).chunks);
    assert Ops.First(script[..1]) == Ops.Op(0x6a, [], 1);
    assert script[..1] + c == script[..38];
  }

  /** So the tag always comes after the commitment, and another payload leaves it a commitment. */
  lemma CommitmentStays(
    s: seq<byte>, t: seq<byte>, before: seq<seq<byte>>, c: seq<byte>, d: seq<byte>, rest: seq<byte>)
    requires IsCommitment(s) && Carries(SIGNET_HEADER, s, before, c, rest) && Carries(SIGNET_HEADER, t, before, d, rest)
    ensures IsCommitment(t)
  {
    hide Tagged, Ops.First, Ops.Parse;
    CommitmentChunks(s);
    ParseAppend(before, c, rest);
    var chunks := before + [c] + Ops.Parse(rest).chunks;
    assert chunks[|before|] == c;
    assert before[0] == chunks[0] && before[1] == chunks[1];
    FlattenTwo(before);
    assert s[..38] <= Ops.Flatten(before);
    assert t[..38] == s[..38];
    assert t[..6] == t[..38][..6] && s[..6] == s[..38][..6];
  }

  lemma FlattenTwo(chunks: seq<seq<byte>>)
    requires |chunks| >= 2
    ensures chunks[0] + chunks[1] <= Ops.Flatten(chunks)
  {
    assert Ops.Flatten(chunks) == chunks[0] + Ops.Flatten(chunks[1..]);
    assert Ops.Flatten(chunks[1..]) == chunks[1] + Ops.Flatten(chunks[1..][1..]);
  }

  // ------------------------------------------------- the two virtual transactions

  datatype SignetError = NoCoinbase | MissingWitnessCommitment | MalformedSolution

  datatype Outcome<+T> = Ok(value: T) | Err(error: SignetError) {
    predicate IsFailure() { Err? }
    function PropagateFailure<U>(): Outcome<U>
      requires Err?
    {
      Err(error)
    }
    function Extract(): T
      requires Ok?
    {
      value
    }
  }

  datatype Solution = Solution(scriptSig: seq<byte>, stack: seq<seq<byte>>)
  datatype SignetTxs = SignetTxs(toSpend: Tx, toSign: Tx)

  /** A script, then a witness stack, then nothing. */
  function ParseSolution(data: seq<byte>): Outcome<Solution> {
    match ReadVarBytes(data)
    case Fail(_) => Err(MalformedSolution)
    case Read(scriptSig, s) =>
      match ReadVarList(ReadVarBytes, s)
      case Fail(_) => Err(MalformedSolution)
      case Read(stack, rest) => if rest == [] then Ok(Solution(scriptSig, stack)) else Err(MalformedSolution)
  }

  function EncodeSolution(x: Solution): seq<byte> { VarBytes(x.scriptSig) + VarList(VarBytes, x.stack) }

  function ModifiedRoot(hash: Hasher, b: Block, coinbase: Tx): Hash
    requires b.txs != []
  {
    Merkle.Root(hash, [Txid(hash, coinbase)] + Txids(hash, b.txs[1..]))
  }

  /** Version, parent, modified root and time; neither bits nor nonce. */
  function BlockData(h: Header, root: Hash): seq<byte> { I32(h.version) + h.prevHash + root + U32(h.time) }

  function ToSpend(h: Header, root: Hash, challenge: seq<byte>): Tx {
    Tx(0, [TxIn(OutPoint(ZERO_HASH, 0xffff_ffff), [0] + Ops.PushData(BlockData(h, root)), 0, [])],
       [TxOut(0, challenge)], 0)
  }

  function ToSign(hash: Hasher, toSpend: Tx, x: Solution): Tx {
    Tx(0, [TxIn(OutPoint(Txid(hash, toSpend), 0), x.scriptSig, 0, x.stack)], [TxOut(0, [0x6a])], 0)
  }

  /** The coinbase with its commitment blanked. */
  function ModifiedCoinbase(coinbase: Tx, at: nat): Tx
    requires at < |coinbase.outputs|
  {
    var out := coinbase.outputs[at];
    var blank := Ops.Flatten(Blanked(SIGNET_HEADER, Ops.Parse(out.scriptPubkey).chunks));
    coinbase.(outputs := coinbase.outputs[at := out.(scriptPubkey := blank)])
  }

  function SolutionOf(script: seq<byte>): Outcome<Solution> {
    match Section(SIGNET_HEADER, Ops.Parse(script).chunks)
    case None => Ok(Solution([], []))
    case Some(data) => ParseSolution(data)
  }

  /** `SignetTxs::new`. */
  function Derive(hash: Hasher, b: Block, challenge: seq<byte>): Outcome<SignetTxs> {
    if b.txs == [] || !IsCoinbase(b.txs[0]) then Err(NoCoinbase)
    else
      var coinbase := b.txs[0];
      match CommitmentIndex(coinbase.outputs)
      case None => Err(MissingWitnessCommitment)
      case Some(at) =>
        var x :- SolutionOf(coinbase.outputs[at].scriptPubkey);
        var toSpend := ToSpend(b.header, ModifiedRoot(hash, b, ModifiedCoinbase(coinbase, at)), challenge);
        Ok(SignetTxs(toSpend, ToSign(hash, toSpend, x)))
  }

  /** `compute_modified_merkle_root`. */
  method ComputeModifiedRoot(hash: Hasher, b: Block, coinbase: Tx) returns (root: Hash)
    requires b.txs != []
    ensures root == ModifiedRoot(hash, b, coinbase)
  {
    hide Txid, Merkle.Root;
    var leaves := [Txid(hash, coinbase)];
    for i := 1 to |b.txs|
      invariant leaves == [Txid(hash, coinbase)] + Txids(hash, b.txs[1..])[..i - 1]
    {
      leaves := leaves + [Txid(hash, b.txs[i])];
    }
    assert Txids(hash, b.txs[1..])[..|b.txs| - 1] == Txids(hash, b.txs[1..]);
    root := Merkle.ComputeRoot(hash, leaves);
  }

  method DeriveTxs(hash: Hasher, b: Block, challenge: seq<byte>) returns (r: Outcome<SignetTxs>)
    ensures r == Derive(hash, b, challenge)
  {
    hide Ops.Parse, Section, Blanked, ParseSolution, ModifiedRoot, ToSpend, ToSign, IsCoinbase, CommitmentIndex;
    if b.txs == [] || !IsCoinbase(b.txs[0]) { return Err(NoCoinbase); }
    var coinbase := b.txs[0];
    var index := CommitmentIndex(coinbase.outputs);
    if index.None? { return Err(MissingWitnessCommitment); }
    var at := index.value;
    var section, blank := FetchAndClear(SIGNET_HEADER, coinbase.outputs[at].scriptPubkey);
    var modified := coinbase.(outputs := coinbase.outputs[at := coinbase.outputs[at].(scriptPubkey := blank)]);
    var solution := Solution([], []);
    if section.Some? {
      var parsed := ParseSolution(section.value);
      if parsed.Err? { return Err(parsed.error); }
      solution := parsed.value;
    }
    var root := ComputeModifiedRoot(hash, b, modified);
    var toSpend := ToSpend(b.header, root, challenge);
    r := Ok(SignetTxs(toSpend, ToSign(hash, toSpend, solution)));
  }

  // -------------------------------------------------------------- the main result

  /** Where one block keeps its solution: a push at a boundary of the commitment script. */
  datatype Place = Place(before: seq<seq<byte>>, rest: seq<byte>)

  /** The same output but for the solution pushed at that place. */
  ghost predicate SameOutput(a: TxOut, b: TxOut, w: Place, c: seq<byte>, d: seq<byte>) {
    && a.value == b.value
    && Carries(SIGNET_HEADER, a.scriptPubkey, w.before, c, w.rest)
    && Carries(SIGNET_HEADER, b.scriptPubkey, w.before, d, w.rest)
  }

  /** Coinbases that differ in nothing but the solution, and perhaps their witness stacks. */
  ghost predicate SameCoinbase(a: Tx, b: Tx, at: nat, w: Place, c: seq<byte>, d: seq<byte>) {
    && a.version == b.version && a.lockTime == b.lockTime && SameButStacks(a.inputs, b.inputs)
    && at < |a.outputs| == |b.outputs|
    && (forall i :: 0 <= i < |a.outputs| && i != at ==> a.outputs[i] == b.outputs[i])
    && SameOutput(a.outputs[at], b.outputs[at], w, c, d)
  }

  /** Blocks that differ in nothing but the solution, witnesses, merkle root, bits and nonce. */
  ghost predicate SameBlock(a: Block, b: Block, at: nat, w: Place, c: seq<byte>, d: seq<byte>) {
    && a.header == b.header.(merkleRoot := a.header.merkleRoot, bits := a.header.bits, nonce := a.header.nonce)
    && |a.txs| == |b.txs| > 0 && SameCoinbase(a.txs[0], b.txs[0], at, w, c, d)
    && forall i :: 1 <= i < |a.txs| ==> Legacy(a.txs[i]) == Legacy(b.txs[i])
  }

  lemma {:induction false} LastCommitment(outputs: seq<TxOut>, at: nat)
    requires at < |outputs| && IsCommitment(outputs[at].scriptPubkey)
    requires forall j :: at < j < |outputs| ==> !IsCommitment(outputs[j].scriptPubkey)
    ensures CommitmentIndex(outputs) == Some(at)
  {
    hide IsCommitment;
    if at < |outputs| - 1 { LastCommitment(outputs[..|outputs| - 1], at); }
  }

  lemma SameModified(a: Tx, b: Tx, at: nat, w: Place, c: seq<byte>, d: seq<byte>)
    requires SameCoinbase(a, b, at, w, c, d)
    ensures Legacy(ModifiedCoinbase(a, at)) == Legacy(ModifiedCoinbase(b, at))
  {
    hide Ops.Parse, Blanked, Carries, VarList, IsCoinbase, SameButStacks;
    BlankingForgets(SIGNET_HEADER, a.outputs[at].scriptPubkey, w.before, c, w.rest);
    BlankingForgets(SIGNET_HEADER, b.outputs[at].scriptPubkey, w.before, d, w.rest);
    assert ModifiedCoinbase(a, at).outputs == ModifiedCoinbase(b, at).outputs;
    SameEncoding(a.inputs, b.inputs);
  }

  lemma SameRoot(hash: Hasher, a: Block, b: Block, at: nat, w: Place, c: seq<byte>, d: seq<byte>)
    requires SameBlock(a, b, at, w, c, d)
    ensures ModifiedRoot(hash, a, ModifiedCoinbase(a.txs[0], at))
      == ModifiedRoot(hash, b, ModifiedCoinbase(b.txs[0], at))
  {
    SameModified(a.txs[0], b.txs[0], at, w, c, d);
    hide Legacy, ModifiedCoinbase, Merkle.Root, SameCoinbase;
    assert Txids(hash, a.txs[1..]) == Txids(hash, b.txs[1..]);
  }

  lemma SameIndex(a: Tx, b: Tx, at: nat, w: Place, c: seq<byte>, d: seq<byte>)
    requires SameCoinbase(a, b, at, w, c, d) && CommitmentIndex(a.outputs) == Some(at)
    ensures CommitmentIndex(b.outputs) == Some(at) && IsCoinbase(a) == IsCoinbase(b)
  {
    hide IsCommitment, CommitmentIndex, Carries;
    CommitmentStays(a.outputs[at].scriptPubkey, b.outputs[at].scriptPubkey, w.before, c, d, w.rest);
    LastCommitment(b.outputs, at);
    assert forall i :: 0 <= i < |a.inputs| ==> StripInput(a.inputs[i]) == StripInput(b.inputs[i]);
  }

  /** Both transactions, given the one to spend and the outcome of reading the solution. */
  function Signed(hash: Hasher, toSpend: Tx, x: Outcome<Solution>): Outcome<SignetTxs> {
    match x
    case Err(e) => Err(e)
    case Ok(solution) => Ok(SignetTxs(toSpend, ToSign(hash, toSpend, solution)))
  }

  /** The solution in that place; an unsigned block has the empty one. */
  function Carried(c: seq<byte>): Outcome<Solution> {
    if Tagged(SIGNET_HEADER, c) then ParseSolution(Ops.First(c).data[4..]) else Ok(Solution([], []))
  }

  lemma DeriveOne(hash: Hasher, b: Block, challenge: seq<byte>, at: nat, w: Place, c: seq<byte>)
    requires b.txs != [] && IsCoinbase(b.txs[0]) && CommitmentIndex(b.txs[0].outputs) == Some(at)
    requires Carries(SIGNET_HEADER, b.txs[0].outputs[at].scriptPubkey, w.before, c, w.rest)
    ensures Derive(hash, b, challenge) == Signed(
      hash, ToSpend(b.header, ModifiedRoot(hash, b, ModifiedCoinbase(b.txs[0], at)), challenge), Carried(c))
  {
    BlankingForgets(SIGNET_HEADER, b.txs[0].outputs[at].scriptPubkey, w.before, c, w.rest);
    hide ModifiedRoot, ModifiedCoinbase, Ops.Parse, Ops.First, Section, CommitmentIndex, IsCoinbase, Carries,
      ToSign, ToSpend, ParseSolution, Tagged;
    TaggedMeans(SIGNET_HEADER, c);
  }

  /**
   * The signing message ignores the solution: two blocks that differ only in the payload of the first tagged push,
   * whatever push width each one needs and whether or not one of them is still unsigned, derive the same
   * `to_spend`, and `to_sign` differs only in the solution it carries.
   */
  lemma MessageIgnoresSolution(
    hash: Hasher, a: Block, b: Block, challenge: seq<byte>, at: nat, w: Place, c: seq<byte>, d: seq<byte>)
    returns (toSpend: Tx)
    requires SameBlock(a, b, at, w, c, d) && IsCoinbase(a.txs[0]) && CommitmentIndex(a.txs[0].outputs) == Some(at)
    ensures Derive(hash, a, challenge) == Signed(hash, toSpend, Carried(c))
    ensures Derive(hash, b, challenge) == Signed(hash, toSpend, Carried(d))
  {
    SameRoot(hash, a, b, at, w, c, d);
    SameIndex(a.txs[0], b.txs[0], at, w, c, d);
    hide ModifiedRoot, ModifiedCoinbase, Ops.Parse, Ops.First, CommitmentIndex, IsCoinbase,
      Ops.PushData, SameButStacks, Signed, Derive, Carried, Carries;
    DeriveOne(hash, a, challenge, at, w, c);
    DeriveOne(hash, b, challenge, at, w, d);
    toSpend := ToSpend(a.header, ModifiedRoot(hash, a, ModifiedCoinbase(a.txs[0], at)), challenge);
  }

  /** And it binds everything else: equal messages mean equal version, parent, modified root, time and challenge. */
  lemma MessageBinds(g: Header, h: Header, root: Hash, other: Hash, challenge: seq<byte>, rival: seq<byte>)
    requires ToSpend(g, root, challenge) == ToSpend(h, other, rival)
    ensures g.version == h.version && g.prevHash == h.prevHash && root == other && g.time == h.time
    ensures challenge == rival
  {
    SpendPayload(g, root, challenge);
    SpendPayload(h, other, rival);
    hide ToSpend, BlockData;
    DataBinds(g, h, root, other);
  }

  lemma SpendPayload(h: Header, root: Hash, challenge: seq<byte>)
    ensures var spend := ToSpend(h, root, challenge);
      && |spend.inputs[0].scriptSig| == 74 && spend.inputs[0].scriptSig[2..] == BlockData(h, root)
      && spend.outputs[0].scriptPubkey == challenge
  {
    var x := BlockData(h, root);
    assert |x| == 72;
    assert Ops.PushData(x) == [72] + x;
    hide Ops.PushData, BlockData;
    assert ([0] + ([72] + x))[2..] == x;
  }

  /** The bytes that are signed over, where BIP 325 puts them, and the transaction that spends them. */
  lemma MessageLayout(hash: Hasher, h: Header, root: Hash, challenge: seq<byte>, x: Solution)
    ensures var spend := ToSpend(h, root, challenge); var sign := ToSign(hash, spend, x);
      var push := Ops.First(spend.inputs[0].scriptSig[1..]);
      && spend.inputs[0].scriptSig[0] == 0 && push.Op? && |push.data| == 72
      && push.data[0..4] == EncodeHeader(h)[0..4] && push.data[4..36] == EncodeHeader(h)[4..36]
      && push.data[36..68] == root && push.data[68..72] == EncodeHeader(h)[68..72]
      && sign.inputs[0].prev == OutPoint(hash(Legacy(spend)), 0) && spend.outputs[0].scriptPubkey == challenge
  {
    hide LeBytes, LeValue, Pow, Legacy;
    var data := BlockData(h, root);
    Ops.PushReadsBack(data);
    var spend := ToSpend(h, root, challenge);
    assert spend.inputs[0].scriptSig == [0] + Ops.PushData(data);
    hide Ops.PushData, Ops.First;
    assert spend.inputs[0].scriptSig[1..] == Ops.PushData(data);
    var s := EncodeHeader(h);
    assert data[0..4] == I32(h.version) == s[0..4] && data[4..36] == h.prevHash == s[4..36];
    assert data[36..68] == root && data[68..72] == U32(h.time) == s[68..72];
  }

  /** Byte for byte: the transaction that is spent, an output of value 0 with the challenge. */
  lemma SpendBytes(h: Header, root: Hash, challenge: seq<byte>)
    ensures Legacy(ToSpend(h, root, challenge))
      == Zeros(4) + [1] + Zeros(32) + [0xff, 0xff, 0xff, 0xff] + VarBytes([0] + Ops.PushData(BlockData(h, root)))
        + Zeros(4) + [1] + Zeros(8) + VarBytes(challenge) + Zeros(4)
  {
    WordBytes();
    hide U32, U64, VarBytes, BlockData, Ops.PushData, Legacy, Zeros;
    OneInOneOut(ToSpend(h, root, challenge));
  }

  /** And the one that spends it: the solution's script, and an output of value 0 that returns at once. */
  lemma SignBytes(hash: Hasher, spend: Tx, x: Solution)
    ensures Legacy(ToSign(hash, spend, x))
      == Zeros(4) + [1] + hash(Legacy(spend)) + Zeros(4) + VarBytes(x.scriptSig) + Zeros(4)
        + [1] + Zeros(8) + [1, 0x6a] + Zeros(4)
    ensures ToSign(hash, spend, x).inputs[0].stack == x.stack
  {
    WordBytes();
    hide U32, U64, VarBytes, Legacy, Zeros;
    OneInOneOut(ToSign(hash, spend, x));
  }

  lemma OneInOneOut(tx: Tx)
    requires |tx.inputs| == 1 && |tx.outputs| == 1
    ensures var i, o := tx.inputs[0], tx.outputs[0];
      Legacy(tx) == U32(tx.version) + [1] + i.prev.txid + U32(i.prev.vout) + VarBytes(i.scriptSig) + U32(i.sequence)
        + [1] + U64(o.value) + VarBytes(o.scriptPubkey) + U32(tx.lockTime)
  {
    var i, o := tx.inputs[0], tx.outputs[0];
    OneItem(EncodeIn, i);
    OneItem(EncodeOut, o);
    hide U32, U64, VarBytes, VarList;
    assert tx.inputs == [i] && tx.outputs == [o];
    Regroup(U32(tx.version), [1], i.prev.txid + U32(i.prev.vout) + VarBytes(i.scriptSig) + U32(i.sequence),
            [1], U64(o.value) + VarBytes(o.scriptPubkey), U32(tx.lockTime));
    Regroup5(U32(tx.version) + [1], i.prev.txid, U32(i.prev.vout), VarBytes(i.scriptSig), U32(i.sequence));
  }

  lemma Regroup(a: seq<byte>, b: seq<byte>, c: seq<byte>, d: seq<byte>, e: seq<byte>, f: seq<byte>)
    ensures a + ((b + c) + ((d + e) + f)) == a + b + c + d + e + f
  {
  }

  lemma Regroup5(a: seq<byte>, b: seq<byte>, c: seq<byte>, d: seq<byte>, e: seq<byte>)
    ensures a + (b + c + d + e) == a + b + c + d + e
  {
  }

  lemma OneItem<T>(enc: T -> seq<byte>, item: T)
    ensures VarList(enc, [item]) == [1] + enc(item)
  {
    assert Concat(enc, [item]) == enc(item) + Concat(enc, []);
  }

  lemma WordBytes()
    ensures U32(0) == Zeros(4) && U64(0) == Zeros(8) && U32(0xffff_ffff) == [0xff, 0xff, 0xff, 0xff]
    ensures VarBytes([0x6a]) == [1, 0x6a]
  {
  }

  /** Without a tagged push the solution is empty. */
  lemma {:induction false} UnsignedIsEmpty(chunks: seq<seq<byte>>)
    ensures Section(SIGNET_HEADER, chunks).None? <==> NoneTagged(SIGNET_HEADER, chunks)
    decreases |chunks|
  {
    hide Tagged;
    if chunks != [] {
      UnsignedIsEmpty(chunks[1..]);
      assert chunks == [chunks[0]] + chunks[1..];
    }
  }

  /** A block without a solution is signed by the empty one. */
  lemma UnsignedDerives(hash: Hasher, b: Block, challenge: seq<byte>, at: nat)
    requires b.txs != [] && IsCoinbase(b.txs[0]) && CommitmentIndex(b.txs[0].outputs) == Some(at)
    requires NoneTagged(SIGNET_HEADER, Ops.Parse(b.txs[0].outputs[at].scriptPubkey).chunks)
    ensures var r := Derive(hash, b, challenge);
      && r.Ok? && r.value.toSign.inputs[0].scriptSig == [] && r.value.toSign.inputs[0].stack == []
      && r.value.toSign.inputs[0].prev == OutPoint(Txid(hash, r.value.toSpend), 0)
  {
    UnsignedIsEmpty(Ops.Parse(b.txs[0].outputs[at].scriptPubkey).chunks);
    hide Section, NoneTagged, Ops.Parse, IsCoinbase, CommitmentIndex, ModifiedRoot, ModifiedCoinbase, ToSpend;
  }

  /** An unsigned block, whose commitment carries the bare tag, signs over its own merkle root. */
  lemma UnsignedRoot(hash: Hasher, b: Block, at: nat, w: Place)
    requires b.txs != [] && at < |b.txs[0].outputs|
    requires Carries(SIGNET_HEADER, b.txs[0].outputs[at].scriptPubkey, w.before, Bare(SIGNET_HEADER), w.rest)
    requires Ops.Parse(w.rest).tail == []
    ensures ModifiedRoot(hash, b, ModifiedCoinbase(b.txs[0], at)) == Merkle.Root(hash, Txids(hash, b.txs))
  {
    var script := b.txs[0].outputs[at].scriptPubkey;
    BlankingForgets(SIGNET_HEADER, script, w.before, Bare(SIGNET_HEADER), w.rest);
    FlattenAround(w.before, Bare(SIGNET_HEADER), Ops.Parse(w.rest).chunks, []);
    Ops.ParseChunks(w.rest);
    hide Ops.Parse, Ops.Flatten, Blanked, Merkle.Root, Txid, Bare, Ops.First;
    assert Ops.Flatten(Ops.Parse(w.rest).chunks) + [] == w.rest;
    assert Ops.Flatten(Blanked(SIGNET_HEADER, Ops.Parse(script).chunks)) == script;
    assert ModifiedCoinbase(b.txs[0], at) == b.txs[0];
    assert Txids(hash, b.txs) == [Txid(hash, b.txs[0])] + Txids(hash, b.txs[1..]);
  }

  lemma DataBinds(g: Header, h: Header, root: Hash, other: Hash)
    requires BlockData(g, root) == BlockData(h, other)
    ensures g.version == h.version && g.prevHash == h.prevHash && root == other && g.time == h.time
  {
    var x := BlockData(g, root);
    hide LeBytes, LeValue, Pow;
    assert x[..4] == I32(g.version) == I32(h.version) && x[4..36] == g.prevHash == h.prevHash;
    assert x[36..68] == root == other && x[68..] == U32(g.time) == U32(h.time);
    IntegersBind(g.version, h.version, g.time, h.time);
  }

  lemma IntegersBind(v: i32, w: i32, t: u32, u: u32)
    requires I32(v) == I32(w) && U32(t) == U32(u)
    ensures v == w && t == u
  {
    hide LeBytes, LeValue, Pow;
    SmallPowers();
    LeBytesValue(4, t);
    LeBytesValue(4, u);
    LeBytesValue(4, if v < 0 then v + 0x1_0000_0000 else v);
    LeBytesValue(4, if w < 0 then w + 0x1_0000_0000 else w);
  }

  /** A solution pushed into the commitment, behind the tag, is the one that `to_sign` carries. */
  lemma SolutionIsCarried(
    hash: Hasher, b: Block, challenge: seq<byte>, at: nat, before: seq<seq<byte>>, x: Solution, rest: seq<byte>)
    requires b.txs != [] && IsCoinbase(b.txs[0]) && CommitmentIndex(b.txs[0].outputs) == Some(at)
    requires Ops.Instrs(before) && NoneTagged(SIGNET_HEADER, before) && FitsSolution(x)
    requires |EncodeSolution(x)| < 0x1_0000_0000 - 4
    requires b.txs[0].outputs[at].scriptPubkey
      == Ops.Flatten(before) + Ops.PushData(SIGNET_HEADER + EncodeSolution(x)) + rest
    ensures var r := Derive(hash, b, challenge);
      && r.Ok? && r.value.toSign == ToSign(hash, r.value.toSpend, x)
      && r.value.toSign.inputs[0].scriptSig == x.scriptSig && r.value.toSign.inputs[0].stack == x.stack
  {
    var c := Ops.PushData(SIGNET_HEADER + EncodeSolution(x));
    assert EncodeSolution(x) != [] by { VarIntLength(|x.scriptSig|); }
    PushIsTagged(SIGNET_HEADER, EncodeSolution(x));
    SolutionRoundTrip(x);
    hide Ops.PushData, Ops.First, Tagged, EncodeSolution, ParseSolution, Derive, IsCoinbase, CommitmentIndex, ToSpend,
      ModifiedRoot, ModifiedCoinbase, Ops.Instrs, NoneTagged;
    DeriveOne(hash, b, challenge, at, Place(before, rest), c);
  }

  ghost predicate FitsSolution(x: Solution) {
    && |x.scriptSig| <= MAX_WIRE_ALLOCATION && |x.stack| <= MAX_WIRE_ALLOCATION
    && forall e :: e in x.stack ==> |e| <= MAX_WIRE_ALLOCATION
  }

  lemma SolutionRoundTrip(x: Solution)
    requires FitsSolution(x)
    ensures ParseSolution(EncodeSolution(x)) == Ok(x)
  {
    hide ReadVarBytes, VarBytes, ReadVarList, VarList;
    VarBytesRoundTrip(x.scriptSig, VarList(VarBytes, x.stack));
    forall i | 0 <= i < |x.stack| ensures RoundTrips(VarBytes, ReadVarBytes, x.stack[i], x.stack[i]) {
      BytesRoundTrip(x.stack[i]);
    }
    ListRoundTrip(VarBytes, ReadVarBytes, x.stack, x.stack, []);
    assert VarList(VarBytes, x.stack) + [] == VarList(VarBytes, x.stack);
  }

  /** Only the encoding of a solution parses, with nothing after it. */
  lemma SolutionExact(data: seq<byte>)
    requires ParseSolution(data).Ok?
    ensures data == EncodeSolution(ParseSolution(data).value)
  {
    hide VarBytes, VarList, ReadVarBytes, ReadVarList;
    VarBytesExact(data);
    var s := ReadVarBytes(data).rest;
    forall t: seq<byte> | ReadVarBytes(t).Read? ensures t == VarBytes(ReadVarBytes(t).value) + ReadVarBytes(t).rest {
      VarBytesExact(t);
    }
    ListExact(VarBytes, ReadVarBytes, s);
  }

  lemma BytesRoundTrip(e: seq<byte>)
    requires |e| <= MAX_WIRE_ALLOCATION
    ensures RoundTrips(VarBytes, ReadVarBytes, e, e)
  {
    hide ReadVarBytes;
    forall rest: seq<byte> ensures ReadVarBytes(VarBytes(e) + rest) == Read(e, rest) {
      VarBytesRoundTrip(e, rest);
    }
  }
}
