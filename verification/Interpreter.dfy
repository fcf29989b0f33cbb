/** The script machine: one instruction at a time, with every resource limit it enforces. */
module Interpreter {
  import opened Bytes
  import opened Wire
  import opened Opcodes
  import opened Multisig
  import Transaction
  import Num = ScriptNum
  import Ops = ScriptOps

  const MAX_SCRIPT_SIZE: nat := 10_000
  const MAX_OPS_PER_SCRIPT: nat := 201
  const MAX_SCRIPT_ELEMENT_SIZE: nat := 520
  const MAX_STACK_SIZE: nat := 1000
  const MAX_PUBKEYS_PER_MULTISIG: nat := 20
  const DEFAULT_MAX_NUM_SIZE: nat := 4
  const VALIDATION_WEIGHT_PER_SIGOP_PASSED: nat := 50
  const VALIDATION_WEIGHT_OFFSET: nat := 50

  type Stack = seq<Elem>
  type Digest = s: seq<byte> | |s| == 20 || |s| == 32 witness LeBytes(32, 0)

  datatype SigVersion = Base | WitnessV0 | Tapscript

  datatype ScriptError =
    | ScriptSize | BadOpcode | PushSize | OpCount | DisabledOpcode | MinimalData | UnknownError
    | DiscourageUpgradableNops | NegativeLocktime | UnsatisfiedLocktime | TapscriptMinimalIf | MinimalIf
    | UnbalancedConditional | Verify | OpReturn | InvalidStackOperation | InvalidAltstackOperation
    | EqualVerify | NumEqualVerify | SigFindAndDelete | OpCodeseparator | SigNullFail | CheckSigVerify
    | TapscriptCheckMultisig | CheckMultisigVerify | PubkeyCount | SigCount | SigNullDummy
    | TapscriptValidationWeight | PubkeyType | DiscourageUpgradablePubkeyType | StackSize
    | DiscourageOpSuccess | CleanStack | EvalFalse | Other(code: nat)

  datatype Flags = Flags(
    minimalData: bool, checkLockTimeVerify: bool, checkSequenceVerify: bool, discourageUpgradableNops: bool,
    minimalIf: bool, nullFail: bool, nullDummy: bool, constScriptCode: bool,
    discourageUpgradablePubkeyType: bool, discourageOpSuccess: bool)

  /** Signatures, hashes and lock times are whatever these say. */
  datatype Checker = Checker(
    ecdsa: (Elem, Elem, seq<byte>, SigVersion) -> bool,
    schnorr: (Elem, Elem, nat) -> Option<ScriptError>,
    lockTime: int -> bool,
    sequence: int -> bool,
    sigEncoding: Elem -> Option<ScriptError>,
    keyEncoding: (Elem, SigVersion) -> Option<ScriptError>,
    digest: (byte, Elem) -> Digest)

  datatype Env = Env(script: seq<byte>, flags: Flags, version: SigVersion, checker: Checker)

  /** `checks` counts the signatures that passed the tapscript budget; it is an observer, not a rule. */
  datatype Machine = Machine(
    stack: Stack, alt: Stack, cond: seq<bool>, ops: nat, codeSep: nat, sepPos: nat, weight: int, checks: nat)

  datatype Result<+T> = Ok(value: T) | Err(error: ScriptError) {
    predicate IsFailure() { Err? }
    function PropagateFailure<U>(): Result<U>
      requires Err?
    {
      Err(error)
    }
    function Extract(): T
      requires Ok?
    {
      value
    }
  }

  predicate Legacy(v: SigVersion) { v != Tapscript }

  // ------------------------------------------------------------ stack helpers

  function Pop(s: Stack): Result<(Elem, Stack)> {
    if s == [] then Err(InvalidStackOperation) else Ok((s[|s| - 1], s[..|s| - 1]))
  }

  /** The `depth`-th element from the top, 1 being the top. */
  function Peek(s: Stack, depth: nat): Result<Elem>
    requires depth > 0
  {
    if |s| < depth then Err(InvalidStackOperation) else Ok(s[|s| - depth])
  }

  function Bool(b: bool): Elem { if b then [1] else [] }

  function Number(e: Elem, env: Env, maxSize: nat): Result<int> {
    match Num.Decode(e, env.flags.minimalData, maxSize)
    case Ok(n) => Ok(n)
    case Err(UnknownError) => Err(UnknownError)
    case Err(MinimalData) => Err(MinimalData)
  }

  function PopNumber(s: Stack, env: Env): Result<(int, Stack)> {
    var (e, s) :- Pop(s);
    var n :- Number(e, env, DEFAULT_MAX_NUM_SIZE);
    Ok((n, s))
  }

  // -------------------------------------------------------------- stack shuffles

  predicate IsShuffle(op: byte) {
    || OP_2DROP <= op <= OP_OVER || OP_ROT <= op <= OP_TUCK || op == OP_SIZE
  }

  /** How many elements a shuffle needs. */
  function ShuffleDepth(op: byte): nat {
    if op == OP_2ROT then 6
    else if op == OP_2OVER || op == OP_2SWAP then 4
    else if op == OP_3DUP || op == OP_ROT then 3
    else if op == OP_2DROP || op == OP_2DUP || op == OP_NIP || op == OP_OVER || op == OP_SWAP || op == OP_TUCK then 2
    else if op == OP_DEPTH then 0
    else 1
  }

  function Shuffled(op: byte, s: Stack): Stack
    requires |s| >= ShuffleDepth(op)
  {
    var n := |s|;
    if op == OP_2DROP then s[..n - 2]
    else if op == OP_2DUP then s + [s[n - 2], s[n - 1]]
    else if op == OP_3DUP then s + [s[n - 3], s[n - 2], s[n - 1]]
    else if op == OP_2OVER then s + [s[n - 4], s[n - 3]]
    else if op == OP_2ROT then s[..n - 6] + s[n - 4..] + [s[n - 6], s[n - 5]]
    else if op == OP_2SWAP then s[..n - 4] + [s[n - 2], s[n - 1], s[n - 4], s[n - 3]]
    else if op == OP_IFDUP then (if Num.Truthy(s[n - 1]) then s + [s[n - 1]] else s)
    else if op == OP_DEPTH then s + [Num.Encode(n)]
    else if op == OP_DROP then s[..n - 1]
    else if op == OP_DUP then s + [s[n - 1]]
    else if op == OP_NIP then s[..n - 2] + [s[n - 1]]
    else if op == OP_OVER then s + [s[n - 2]]
    else if op == OP_ROT then s[..n - 3] + [s[n - 2], s[n - 1], s[n - 3]]
    else if op == OP_SWAP then s[..n - 2] + [s[n - 1], s[n - 2]]
    else if op == OP_TUCK then s[..n - 2] + [s[n - 1], s[n - 2], s[n - 1]]
    else s + [Num.Encode(|s[n - 1]|)]
  }

  function Shuffle(op: byte, s: Stack): Result<Stack> {
    if |s| < ShuffleDepth(op) then Err(InvalidStackOperation) else Ok(Shuffled(op, s))
  }

  function PickOrRoll(op: byte, s: Stack, env: Env): Result<Stack> {
    if |s| < 2 then Err(InvalidStackOperation)
    else
      var (n, s) :- PopNumber(s, env);
      if n < 0 || n >= |s| then Err(InvalidStackOperation)
      else
        var at := |s| - 1 - n;
        if op == OP_ROLL then Ok(s[..at] + s[at + 1..] + [s[at]]) else Ok(s + [s[at]])
  }

  // ------------------------------------------------------------------ numbers

  function Unary(op: byte, v: int): int {
    if op == OP_1ADD then v + 1
    else if op == OP_1SUB then v - 1
    else if op == OP_NEGATE then -v
    else if op == OP_ABS then (if v < 0 then -v else v)
    else if op == OP_NOT then (if v == 0 then 1 else 0)
    else (if v != 0 then 1 else 0)
  }

  function Flag(b: bool): int { if b then 1 else 0 }

  function Binary(op: byte, a: int, b: int): int {
    if op == OP_ADD then a + b
    else if op == OP_SUB then a - b
    else if op == OP_BOOLAND then Flag(a != 0 && b != 0)
    else if op == OP_BOOLOR then Flag(a != 0 || b != 0)
    else if op == OP_NUMEQUAL || op == OP_NUMEQUALVERIFY then Flag(a == b)
    else if op == OP_NUMNOTEQUAL then Flag(a != b)
    else if op == OP_LESSTHAN then Flag(a < b)
    else if op == OP_GREATERTHAN then Flag(a > b)
    else if op == OP_LESSTHANOREQUAL then Flag(a <= b)
    else if op == OP_GREATERTHANOREQUAL then Flag(a >= b)
    else if op == OP_MIN then (if a <= b then a else b)
    else (if a >= b then a else b)
  }

  function UnaryOp(op: byte, s: Stack, env: Env): Result<Stack> {
    var (v, s) :- PopNumber(s, env);
    Ok(s + [Num.Encode(Unary(op, v))])
  }

  function BinaryOp(op: byte, s: Stack, env: Env): Result<Stack> {
    if |s| < 2 then Err(InvalidStackOperation)
    else
      var (b, s) :- PopNumber(s, env);
      var (a, s) :- PopNumber(s, env);
      var r := Binary(op, a, b);
      if op == OP_NUMEQUALVERIFY then (if r == 0 then Err(NumEqualVerify) else Ok(s)) else Ok(s + [Num.Encode(r)])
  }

  function WithinOp(s: Stack, env: Env): Result<Stack> {
    if |s| < 3 then Err(InvalidStackOperation)
    else
      var (max, s) :- PopNumber(s, env);
      var (min, s) :- PopNumber(s, env);
      var (v, s) :- PopNumber(s, env);
      Ok(s + [Bool(min <= v < max)])
  }

  function EqualOp(op: byte, s: Stack): Result<Stack> {
    if |s| < 2 then Err(InvalidStackOperation)
    else
      var (b, s) :- Pop(s);
      var (a, s) :- Pop(s);
      if op == OP_EQUALVERIFY then (if a == b then Ok(s) else Err(EqualVerify)) else Ok(s + [Bool(a == b)])
  }

  // --------------------------------------------------------------- conditionals

  function Conditional(op: byte, m: Machine, executing: bool, env: Env): Result<Machine> {
    if !executing then Ok(m.(cond := m.cond + [false]))
    else
      var (top, s) :- Pop(m.stack);
      var nonMinimal := |top| > 1 || (|top| == 1 && top[0] != 1);
      if env.version == Tapscript && nonMinimal then Err(TapscriptMinimalIf)
      else if env.version == WitnessV0 && env.flags.minimalIf && nonMinimal then Err(MinimalIf)
      else
        var value := Num.Truthy(top);
        Ok(m.(stack := s, cond := m.cond + [if op == OP_NOTIF then !value else value]))
  }

  // ----------------------------------------------------------------- signatures

  predicate HasCodeSeparator(script: seq<byte>) {
    exists i :: 0 <= i < |Ops.Parse(script).chunks| && Ops.Parse(script).chunks[i] != []
      && Ops.Parse(script).chunks[i][0] == OP_CODESEPARATOR
  }

  /** `build_script_code`: from the last separator on, without the signature itself before segwit. */
  function ScriptCode(sig: Elem, codeSep: nat, env: Env): Result<seq<byte>> {
    var code := if codeSep <= |env.script| then env.script[codeSep..] else [];
    if env.version != Base then Ok(code)
    else
      var push := Ops.PushData(sig);
      if env.flags.constScriptCode && Ops.Occurrences(Ops.Parse(code).chunks, push) > 0 then Err(SigFindAndDelete)
      else if env.flags.constScriptCode && HasCodeSeparator(env.script) then Err(OpCodeseparator)
      else Ok(Ops.Stripped(code, push))
  }

  function EcdsaCheck(sig: Elem, key: Elem, codeSep: nat, env: Env): Result<bool> {
    var code :- ScriptCode(sig, codeSep, env);
    if env.checker.sigEncoding(sig).Some? then Err(env.checker.sigEncoding(sig).value)
    else if env.checker.keyEncoding(key, env.version).Some? then Err(env.checker.keyEncoding(key, env.version).value)
    else
      var ok := sig != [] && env.checker.ecdsa(sig, key, code, env.version);
      if !ok && env.flags.nullFail && sig != [] then Err(SigNullFail) else Ok(ok)
  }

  /** `eval_checksig_tapscript`: a nonempty signature costs 50 units before anything else is looked at. */
  function TapscriptCheck(m: Machine, sig: Elem, key: Elem, env: Env): Result<(bool, Machine)> {
    var success := sig != [];
    var weight := if success then m.weight - VALIDATION_WEIGHT_PER_SIGOP_PASSED else m.weight;
    var after := m.(weight := weight, checks := m.checks + if success then 1 else 0);
    if success && weight < 0 then Err(TapscriptValidationWeight)
    else if key == [] then Err(PubkeyType)
    else if |key| == 32 then
      (if success && env.checker.schnorr(sig, key, m.sepPos).Some?
       then Err(env.checker.schnorr(sig, key, m.sepPos).value) else Ok((success, after)))
    else if env.flags.discourageUpgradablePubkeyType then Err(DiscourageUpgradablePubkeyType)
    else Ok((success, after))
  }

  function CheckSigOp(op: byte, m: Machine, env: Env): Result<Machine> {
    if |m.stack| < 2 then Err(InvalidStackOperation)
    else
      var (key, s) :- Pop(m.stack);
      var (sig, s) :- Pop(s);
      var popped := m.(stack := s);
      var (success, after) :-
        if env.version == Tapscript then TapscriptCheck(popped, sig, key, env)
        else match EcdsaCheck(sig, key, m.codeSep, env) case Ok(b) => Ok((b, popped)) case Err(e) => Err(e);
      if op == OP_CHECKSIGVERIFY then (if success then Ok(after) else Err(CheckSigVerify))
      else Ok(after.(stack := after.stack + [Bool(success)]))
  }

  function CheckSigAddOp(m: Machine, env: Env): Result<Machine> {
    if env.version != Tapscript then Err(BadOpcode)
    else if |m.stack| < 3 then Err(InvalidStackOperation)
    else
      var (key, s) :- Pop(m.stack);
      var (n, s) :- PopNumber(s, env);
      var (sig, s) :- Pop(s);
      var (success, after) :- TapscriptCheck(m.(stack := s), sig, key, env);
      Ok(after.(stack := after.stack + [Num.Encode(n + Flag(success))]))
  }

  /** Take `n` elements off the top, in their original order. */
  function Split(s: Stack, n: nat): (Stack, Stack)
    requires n <= |s|
  {
    (s[..|s| - n], s[|s| - n..])
  }

  function MultisigOracle(codeSep: nat, env: Env): Oracle<ScriptError> {
    Oracle(
      (sig: Elem, key: Elem) => sig != [] && ScriptCode(sig, codeSep, env).Ok?
        && env.checker.ecdsa(sig, key, ScriptCode(sig, codeSep, env).value, env.version),
      env.checker.sigEncoding,
      (key: Elem) => env.checker.keyEncoding(key, env.version),
      (sig: Elem) => match ScriptCode(sig, codeSep, env) case Ok(_) => None case Err(e) => Some(e))
  }

  /** The arguments of OP_CHECKMULTISIG, and the stack below them. */
  datatype Layout = Layout(keys: Stack, sigs: Stack, rest: Stack)

  /** Keys, signatures and the extra element, with the operations charged per key. */
  function ReadLayout(m: Machine, env: Env): (r: Result<Layout>)
    ensures r.Ok? ==> |r.value.sigs| <= |r.value.keys| && m.ops + |r.value.keys| <= MAX_OPS_PER_SCRIPT
  {
    var (keyCount, s) :- PopNumber(m.stack, env);
    if keyCount < 0 || keyCount > MAX_PUBKEYS_PER_MULTISIG then Err(PubkeyCount)
    else if m.ops + keyCount > MAX_OPS_PER_SCRIPT then Err(OpCount)
    else if |s| < keyCount then Err(InvalidStackOperation)
    else
      var (s, keys) := Split(s, keyCount);
      var (sigCount, s) :- PopNumber(s, env);
      if sigCount < 0 || sigCount > keyCount then Err(SigCount)
      else if |s| < sigCount then Err(InvalidStackOperation)
      else
        var (s, sigs) := Split(s, sigCount);
        var (dummy, s) :- Pop(s);
        if env.flags.nullDummy && dummy != [] then Err(SigNullDummy) else Ok(Layout(keys, sigs, s))
  }

  /** The verdict of the matching loop, which NULLFAIL may turn into an error. */
  function Verdict(scan: Scan<ScriptError>, sigs: Stack, env: Env): Result<bool> {
    match scan
    case Broken(e) => Err(e)
    case Matched(success, used) =>
      if !success && env.flags.nullFail && exists i :: used <= i < |sigs| && sigs[i] != [] then Err(SigNullFail)
      else Ok(success)
  }

  /** `eval_checkmultisig` and the branch around it. */
  function MultisigOp(op: byte, m: Machine, env: Env): Result<Machine> {
    if env.version == Tapscript then Err(TapscriptCheckMultisig)
    else
      var l :- ReadLayout(m, env);
      var success :- Verdict(ScanFrom(MultisigOracle(m.codeSep, env), l.sigs, l.keys, 0, 0), l.sigs, env);
      var after := m.(stack := l.rest, ops := m.ops + |l.keys|);
      if op == OP_CHECKMULTISIGVERIFY then (if success then Ok(after) else Err(CheckMultisigVerify))
      else Ok(after.(stack := after.stack + [Bool(success)]))
  }

  // ------------------------------------------------------------- one instruction

  predicate Executing(m: Machine) { forall b :: b in m.cond ==> b }

  predicate IsHash(op: byte) { OP_RIPEMD160 <= op <= OP_HASH256 }

  predicate IsSmallPush(op: byte) { op == OP_1NEGATE || OP_1 <= op <= OP_16 }

  predicate IsStackOp(op: byte) {
    || IsSmallPush(op) || IsShuffle(op) || op == OP_PICK || op == OP_ROLL || op == OP_EQUAL || op == OP_EQUALVERIFY
    || IsUnary(op) || IsBinary(op) || op == OP_WITHIN || IsHash(op) || op == OP_VERIFY
  }

  /** The opcodes that touch the main stack alone. */
  function StackOp(op: byte, s: Stack, env: Env): Result<Stack>
    requires IsStackOp(op)
  {
    if IsSmallPush(op) then Ok(s + [Num.Encode(op as int - 0x50)])
    else if IsShuffle(op) then Shuffle(op, s)
    else if op == OP_PICK || op == OP_ROLL then PickOrRoll(op, s, env)
    else if op == OP_EQUAL || op == OP_EQUALVERIFY then EqualOp(op, s)
    else if IsUnary(op) then UnaryOp(op, s, env)
    else if IsBinary(op) then BinaryOp(op, s, env)
    else if op == OP_WITHIN then WithinOp(s, env)
    else
      var (top, s) :- Pop(s);
      if IsHash(op) then Ok(s + [env.checker.digest(op, top)])
      else if Num.Truthy(top) then Ok(s) else Err(Verify)
  }

  predicate IsTimeLock(op: byte) { op == OP_CHECKLOCKTIMEVERIFY || op == OP_CHECKSEQUENCEVERIFY }

  /** A time lock whose rule is not active yet is a plain NOP. */
  predicate Inactive(op: byte, env: Env) {
    || (op == OP_CHECKLOCKTIMEVERIFY && !env.flags.checkLockTimeVerify)
    || (op == OP_CHECKSEQUENCEVERIFY && !env.flags.checkSequenceVerify)
  }

  /** The time locks read a five-byte number and leave it where it is. */
  function TimeLock(op: byte, s: Stack, env: Env): Result<()> {
    var top :- Peek(s, 1);
    var n :- Number(top, env, 5);
    if n < 0 then Err(NegativeLocktime)
    else if op == OP_CHECKLOCKTIMEVERIFY then (if env.checker.lockTime(n) then Ok(()) else Err(UnsatisfiedLocktime))
    else if n / 0x8000_0000 % 2 == 0 && !env.checker.sequence(n) then Err(UnsatisfiedLocktime)
    else Ok(())
  }

  /** The opcodes above OP_PUSHDATA4 that use more of the machine than its main stack. */
  function ControlOp(op: byte, m: Machine, offset: nat, next: nat, env: Env): Result<Machine> {
    if op == OP_NOP then Ok(m)
    else if IsTimeLock(op) then var _ :- TimeLock(op, m.stack, env); Ok(m)
    else if op == OP_NOP1 || OP_NOP4 <= op <= OP_NOP10 then
      (if env.flags.discourageUpgradableNops then Err(DiscourageUpgradableNops) else Ok(m))
    else if op == OP_IF || op == OP_NOTIF then Conditional(op, m, Executing(m), env)
    else if op == OP_ELSE then
      (if m.cond == [] then Err(UnbalancedConditional)
       else Ok(m.(cond := m.cond[|m.cond| - 1 := !m.cond[|m.cond| - 1]])))
    else if op == OP_ENDIF then
      (if m.cond == [] then Err(UnbalancedConditional) else Ok(m.(cond := m.cond[..|m.cond| - 1])))
    else if op == OP_RETURN then Err(OpReturn)
    else if op == OP_TOALTSTACK then var (top, s) :- Pop(m.stack); Ok(m.(stack := s, alt := m.alt + [top]))
    else if op == OP_FROMALTSTACK then
      (if m.alt == [] then Err(InvalidAltstackOperation)
       else Ok(m.(stack := m.stack + [m.alt[|m.alt| - 1]], alt := m.alt[..|m.alt| - 1])))
    else if op == OP_CODESEPARATOR then Ok(m.(codeSep := next, sepPos := offset % 0x1_0000_0000))
    else if op == OP_CHECKSIG || op == OP_CHECKSIGVERIFY then CheckSigOp(op, m, env)
    else if op == OP_CHECKSIGADD then CheckSigAddOp(m, env)
    else if op == OP_CHECKMULTISIG || op == OP_CHECKMULTISIGVERIFY then MultisigOp(op, m, env)
    else Err(BadOpcode)
  }

  function Execute(op: byte, data: Elem, m: Machine, offset: nat, next: nat, env: Env): Result<Machine> {
    if op <= OP_PUSHDATA4 then
      (if env.flags.minimalData && !Ops.CheckMinimalPush(data, op) then Err(MinimalData)
       else Ok(m.(stack := m.stack + [data])))
    else if IsStackOp(op) then var s :- StackOp(op, m.stack, env); Ok(m.(stack := s))
    else ControlOp(op, m, offset, next, env)
  }

  /** The operation count after reading `op`; tapscript does not count. */
  function Counted(op: byte, m: Machine, env: Env): Machine {
    if Legacy(env.version) && CountsTowardsOpLimit(op) then m.(ops := m.ops + 1) else m
  }

  /** One turn of the interpreter loop, checks in the order the source makes them. */
  function Step(op: byte, data: Elem, m: Machine, offset: nat, next: nat, env: Env): Result<Machine> {
    var counted := Counted(op, m, env);
    if |data| > MAX_SCRIPT_ELEMENT_SIZE then Err(PushSize)
    else if counted.ops != m.ops && counted.ops > MAX_OPS_PER_SCRIPT then Err(OpCount)
    else if IsDisabled(op) then Err(DisabledOpcode)
    else if !Executing(m) && !(OP_IF <= op <= OP_ENDIF) then Ok(counted)
    else if Inactive(op, env) then
      (if env.flags.discourageUpgradableNops then Err(DiscourageUpgradableNops) else Ok(counted))
    else
      var after :- Execute(op, data, counted, offset, next, env);
      if |after.stack| + |after.alt| > MAX_STACK_SIZE then Err(StackSize) else Ok(after)
  }

  /** What the rest of the script does from `pos` on. */
  function Run(m: Machine, pos: nat, env: Env): Result<Machine>
    requires pos <= |env.script|
    decreases |env.script| - pos
  {
    match Ops.First(env.script[pos..])
    case End => if m.cond == [] then Ok(m) else Err(UnbalancedConditional)
    case BadOpcode => Err(BadOpcode)
    case Op(op, data, n) => var after :- Step(op, data, m, pos, pos + n, env); Run(after, pos + n, env)
  }

  /** The machine at every instruction boundary the run reaches. */
  ghost function Visited(m: Machine, pos: nat, env: Env): seq<Machine>
    requires pos <= |env.script|
    decreases |env.script| - pos
  {
    [m] + match Ops.First(env.script[pos..])
          case Op(op, data, n) =>
            (match Step(op, data, m, pos, pos + n, env)
             case Ok(after) => Visited(after, pos + n, env)
             case Err(_) => [])
          case _ => []
  }

  function Start(stack: Stack, weight: int): Machine {
    Machine(stack, [], [], 0, 0, 0xffff_ffff, weight, 0)
  }

  // ---------------------------------------------------------------- the limits

  predicate SmallElements(s: Stack) { forall e :: e in s ==> |e| <= MAX_SCRIPT_ELEMENT_SIZE }

  /** Everything but the size of the stacks, which one instruction may overshoot before it is refused. */
  predicate Bounded(m: Machine, env: Env, budget: int) {
    && SmallElements(m.stack) && SmallElements(m.alt)
    && m.ops <= MAX_OPS_PER_SCRIPT
    && m.codeSep <= |env.script|
    && m.weight == budget - VALIDATION_WEIGHT_PER_SIGOP_PASSED * m.checks
    && (m.checks > 0 ==> m.weight >= 0)
  }

  predicate Within(m: Machine, env: Env, budget: int) {
    Bounded(m, env, budget) && |m.stack| + |m.alt| <= MAX_STACK_SIZE
  }

  /** The widths of the numbers that scripts read and write. */
  lemma Widths()
    ensures Pow(256, 1) == 0x100 && Pow(256, 2) == 0x1_0000 && Pow(256, 3) == 0x100_0000 && Pow(256, 4) == 0x1_0000_0000
  {
    SmallPowers();
  }

  lemma NumberRange(e: Elem, env: Env, n: nat)
    requires n == 4 || n == 5
    ensures var limit := if n == 4 then 0x8000_0000 else 0x80_0000_0000;
      Number(e, env, n).Ok? ==> Num.Abs(Number(e, env, n).value) < limit
  {
    Widths();
    if 0 < |e| <= n {
      hide Num.DecodeUnchecked;
      Num.DecodeRange(e, n);
    }
  }

  /**
   * No overflow: operands are below 2^31 in magnitude, so every result an opcode computes is below 2^32,
   * far inside an i64, and encodes in at most five bytes.
   */
  lemma ArithmeticFits(op: byte, a: int, b: int)
    requires Num.Abs(a) < 0x8000_0000 && Num.Abs(b) < 0x8000_0000
    ensures Num.Abs(Unary(op, a)) <= 0x8000_0000 && Num.Abs(Binary(op, a, b)) < 0x1_0000_0000
    ensures Num.Abs(a + 1) <= 0x8000_0000
    ensures |Num.Encode(Unary(op, a))| <= 5 && |Num.Encode(Binary(op, a, b))| <= 5 && |Num.Encode(a + 1)| <= 5
  {
    hide Num.Encode;
    Widths();
    Num.EncodeLength(Unary(op, a), 5);
    Num.EncodeLength(Binary(op, a, b), 5);
    Num.EncodeLength(a + 1, 5);
  }

  lemma ShortNumber(v: int)
    requires Num.Abs(v) < 0x1_0000_0000
    ensures |Num.Encode(v)| <= 5
  {
    hide Num.Encode;
    Widths();
    Num.EncodeLength(v, 5);
  }

  lemma SmallShuffled(op: byte, s: Stack)
    requires SmallElements(s) && |s| <= MAX_STACK_SIZE && |s| >= ShuffleDepth(op)
    ensures SmallElements(Shuffled(op, s))
  {
    hide Num.Encode, Num.DecodeUnchecked;
    ShortNumber(|s|);
    if s != [] { ShortNumber(|s[|s| - 1]|); }
  }

  lemma PopNumberFacts(s: Stack, env: Env)
    requires SmallElements(s)
    ensures var r := PopNumber(s, env);
      r.Ok? ==> s != [] && r.value.1 == s[..|s| - 1] && SmallElements(r.value.1) && Num.Abs(r.value.0) < 0x8000_0000
  {
    hide Number;
    if s != [] {
      NumberRange(s[|s| - 1], env, 4);
    }
  }

  lemma SmallPick(op: byte, s: Stack, env: Env)
    requires SmallElements(s)
    ensures PickOrRoll(op, s, env).Ok? ==> SmallElements(PickOrRoll(op, s, env).value)
  {
    hide PopNumber;
    PopNumberFacts(s, env);
  }

  lemma SmallArithmetic(op: byte, s: Stack, env: Env)
    requires SmallElements(s)
    ensures UnaryOp(op, s, env).Ok? ==> SmallElements(UnaryOp(op, s, env).value)
    ensures BinaryOp(op, s, env).Ok? ==> SmallElements(BinaryOp(op, s, env).value)
    ensures WithinOp(s, env).Ok? ==> SmallElements(WithinOp(s, env).value)
  {
    hide PopNumber, Num.Encode, Unary, Binary;
    PopNumberFacts(s, env);
    var first := PopNumber(s, env);
    if first.Ok? {
      var b, rest := first.value.0, first.value.1;
      ArithmeticFits(op, b, b);
      PopNumberFacts(rest, env);
      var second := PopNumber(rest, env);
      if second.Ok? {
        ArithmeticFits(op, second.value.0, b);
        PopNumberFacts(second.value.1, env);
      }
    }
  }

  lemma SmallStackOp(op: byte, s: Stack, env: Env)
    requires IsStackOp(op) && SmallElements(s) && |s| <= MAX_STACK_SIZE
    ensures StackOp(op, s, env).Ok? ==> SmallElements(StackOp(op, s, env).value)
  {
    hide Num.Encode, Num.DecodeUnchecked, PickOrRoll, UnaryOp, BinaryOp, WithinOp, Shuffled, PopNumber;
    if IsSmallPush(op) { ShortNumber(op as int - 0x50); }
    else if IsShuffle(op) {
      if |s| >= ShuffleDepth(op) { SmallShuffled(op, s); }
    }
    SmallPick(op, s, env);
    SmallArithmetic(op, s, env);
  }

  lemma TapscriptBudgetStep(m: Machine, sig: Elem, key: Elem, env: Env, budget: int)
    requires Bounded(m, env, budget)
    ensures var r := TapscriptCheck(m, sig, key, env);
      r.Ok? ==> Bounded(r.value.1, env, budget) && r.value.1.stack == m.stack && r.value.1.alt == m.alt
  {
  }

  lemma BoundedCheckSig(op: byte, m: Machine, env: Env, budget: int)
    requires Bounded(m, env, budget)
    ensures CheckSigOp(op, m, env).Ok? ==> Bounded(CheckSigOp(op, m, env).value, env, budget)
  {
    hide EcdsaCheck, TapscriptCheck;
    if |m.stack| >= 2 {
      var key, sig := m.stack[|m.stack| - 1], m.stack[|m.stack| - 2];
      var rest := m.stack[..|m.stack| - 1];
      var popped := m.(stack := rest[..|rest| - 1]);
      TapscriptBudgetStep(popped, sig, key, env, budget);
    }
  }

  lemma BoundedCheckSigAdd(m: Machine, env: Env, budget: int)
    requires Bounded(m, env, budget)
    ensures CheckSigAddOp(m, env).Ok? ==> Bounded(CheckSigAddOp(m, env).value, env, budget)
  {
    hide TapscriptCheck, PopNumber, Num.Encode;
    if |m.stack| >= 3 {
      var key, rest := m.stack[|m.stack| - 1], m.stack[..|m.stack| - 1];
      PopNumberFacts(rest, env);
      var r := PopNumber(rest, env);
      if r.Ok? {
        var n, s := r.value.0, r.value.1;
        ShortNumber(n + 1);
        ShortNumber(n);
        TapscriptBudgetStep(m.(stack := s[..|s| - 1]), s[|s| - 1], key, env, budget);
      }
    }
  }

  lemma LayoutRest(m: Machine, env: Env)
    requires SmallElements(m.stack)
    ensures ReadLayout(m, env).Ok? ==> SmallElements(ReadLayout(m, env).value.rest)
  {
    hide PopNumber;
    PopNumberFacts(m.stack, env);
    var r := PopNumber(m.stack, env);
    if r.Ok? && 0 <= r.value.0 <= |r.value.1| {
      PopNumberFacts(Split(r.value.1, r.value.0).0, env);
    }
  }

  lemma BoundedMultisig(op: byte, m: Machine, env: Env, budget: int)
    requires Bounded(m, env, budget)
    ensures MultisigOp(op, m, env).Ok? ==> Bounded(MultisigOp(op, m, env).value, env, budget)
  {
    hide MultisigOracle, ScanFrom, ReadLayout, Verdict;
    LayoutRest(m, env);
  }

  lemma BoundedConditional(op: byte, m: Machine, executing: bool, env: Env, budget: int)
    requires Bounded(m, env, budget)
    ensures Conditional(op, m, executing, env).Ok? ==> Bounded(Conditional(op, m, executing, env).value, env, budget)
  {
    hide Num.DecodeUnchecked;
  }

  lemma BoundedControl(op: byte, m: Machine, offset: nat, next: nat, env: Env, budget: int)
    requires Bounded(m, env, budget) && next <= |env.script|
    ensures ControlOp(op, m, offset, next, env).Ok? ==> Bounded(ControlOp(op, m, offset, next, env).value, env, budget)
  {
    hide CheckSigOp, CheckSigAddOp, MultisigOp, TimeLock, Conditional, Executing, Num.DecodeUnchecked;
    if op == OP_IF || op == OP_NOTIF {
      BoundedConditional(op, m, Executing(m), env, budget);
    } else if op == OP_CHECKSIG || op == OP_CHECKSIGVERIFY {
      BoundedCheckSig(op, m, env, budget);
    } else if op == OP_CHECKSIGADD {
      BoundedCheckSigAdd(m, env, budget);
    } else if op == OP_CHECKMULTISIG || op == OP_CHECKMULTISIGVERIFY {
      BoundedMultisig(op, m, env, budget);
    }
  }

  /** Every instruction that does not fail keeps every limit. */
  lemma StepKeepsLimits(op: byte, data: Elem, m: Machine, offset: nat, next: nat, env: Env, budget: int)
    requires Within(m, env, budget) && next <= |env.script|
    ensures var r := Step(op, data, m, offset, next, env); r.Ok? ==> Within(r.value, env, budget)
  {
    hide StackOp, ControlOp, Ops.CheckMinimalPush, IsStackOp;
    var counted := Counted(op, m, env);
    if counted.ops <= MAX_OPS_PER_SCRIPT {
      if op > OP_PUSHDATA4 && IsStackOp(op) {
        SmallStackOp(op, m.stack, env);
      }
      BoundedControl(op, counted, offset, next, env, budget);
    }
  }

  /** So the limits hold at every instruction boundary of every run. */
  lemma {:induction false} RunKeepsLimits(m: Machine, pos: nat, env: Env, budget: int)
    requires pos <= |env.script| && Within(m, env, budget)
    ensures forall v :: v in Visited(m, pos, env) ==> Within(v, env, budget)
    ensures Run(m, pos, env).Ok? ==> Run(m, pos, env).value in Visited(m, pos, env)
    decreases |env.script| - pos
  {
    hide Step, Ops.First, Within;
    var item := Ops.First(env.script[pos..]);
    if item.Op? {
      var r := Step(item.opcode, item.data, m, pos, pos + item.size, env);
      StepKeepsLimits(item.opcode, item.data, m, pos, pos + item.size, env, budget);
      if r.Ok? {
        RunKeepsLimits(r.value, pos + item.size, env, budget);
      }
    }
  }

  /** A branch not taken changes nothing but the conditions and the operation count. */
  lemma SkippedBranch(op: byte, data: Elem, m: Machine, offset: nat, next: nat, env: Env)
    requires !Executing(m) && Step(op, data, m, offset, next, env).Ok?
    ensures var after := Step(op, data, m, offset, next, env).value;
      after == m.(cond := after.cond, ops := after.ops)
  {
    hide StackOp, CheckSigOp, CheckSigAddOp, MultisigOp, TimeLock, Ops.CheckMinimalPush;
  }

  // ------------------------------------------------------- what the opcodes mean

  /** The documented stack effects, on any stack below the elements named. */
  lemma OneEffects(s: Stack, a: Elem)
    ensures Shuffled(OP_DROP, s + [a]) == s && Shuffled(OP_DUP, s + [a]) == s + [a, a]
  {
  }

  lemma TwoEffects(s: Stack, a: Elem, b: Elem)
    ensures Shuffled(OP_OVER, s + [a, b]) == s + [a, b, a] && Shuffled(OP_SWAP, s + [a, b]) == s + [b, a]
    ensures Shuffled(OP_NIP, s + [a, b]) == s + [b] && Shuffled(OP_TUCK, s + [a, b]) == s + [b, a, b]
  {
  }

  lemma CopyEffects(s: Stack, a: Elem, b: Elem, c: Elem)
    ensures Shuffled(OP_2DROP, s + [a, b]) == s && Shuffled(OP_2DUP, s + [a, b]) == s + [a, b, a, b]
    ensures Shuffled(OP_3DUP, s + [a, b, c]) == s + [a, b, c, a, b, c]
  {
  }

  lemma RotEffect(s: Stack, a: Elem, b: Elem, c: Elem)
    ensures Shuffled(OP_ROT, s + [a, b, c]) == s + [b, c, a]
  {
  }

  lemma PairEffects(s: Stack, a: Elem, b: Elem, c: Elem, d: Elem, e: Elem, f: Elem)
    ensures Shuffled(OP_2OVER, s + [a, b, c, d]) == s + [a, b, c, d, a, b]
    ensures Shuffled(OP_2SWAP, s + [a, b, c, d]) == s + [c, d, a, b]
    ensures Shuffled(OP_2ROT, s + [a, b, c, d, e, f]) == s + [c, d, e, f, a, b]
  {
    var six := s + [a, b, c, d, e, f];
    assert six[..|six| - 6] == s && six[|six| - 4..] == [c, d, e, f];
  }

  /** A number the machine writes is one it reads back, whether or not minimal encoding is demanded. */
  lemma NumberReadsBack(n: int, env: Env)
    requires Num.Abs(n) < 0x8000_0000
    ensures Number(Num.Encode(n), env, DEFAULT_MAX_NUM_SIZE) == Ok(n)
  {
    hide Num.Encode, Num.DecodeUnchecked, Num.IsMinimallyEncoded;
    Widths();
    Num.EncodeLength(n, 4);
    Num.DecodeEncode(n);
  }

  lemma PopNumberReadsBack(s: Stack, n: int, env: Env)
    requires Num.Abs(n) < 0x8000_0000
    ensures PopNumber(s + [Num.Encode(n)], env) == Ok((n, s))
  {
    hide Number;
    NumberReadsBack(n, env);
  }

  lemma PickRollEffects(s: Stack, x: Elem, above: Stack, env: Env)
    requires |above| < 0x8000_0000
    ensures PickOrRoll(OP_PICK, s + [x] + above + [Num.Encode(|above|)], env) == Ok(s + [x] + above + [x])
    ensures PickOrRoll(OP_ROLL, s + [x] + above + [Num.Encode(|above|)], env) == Ok(s + above + [x])
  {
    hide PopNumber, Num.Encode;
    var below := s + [x] + above;
    PopNumberReadsBack(below, |above|, env);
    assert below[..|s|] == s && below[|s|] == x && below[|s| + 1..] == above;
  }

  /** OP_PICK or OP_ROLL with the number `k` pushed on top. */
  function At(op: byte, s: Stack, k: nat, env: Env): Result<Stack> { PickOrRoll(op, s + [Num.Encode(k)], env) }

  lemma RollAt(s: Stack, x: Elem, above: Stack, env: Env)
    requires |above| < 0x8000_0000
    ensures At(OP_PICK, s + ([x] + above), |above|, env) == Ok(s + ([x] + above + [x]))
    ensures At(OP_ROLL, s + ([x] + above), |above|, env) == Ok(s + (above + [x]))
  {
    PickRollEffects(s, x, above, env);
    hide *;
    assert s + ([x] + above) == s + [x] + above && s + (above + [x]) == s + above + [x];
    assert s + ([x] + above + [x]) == s + [x] + above + [x];
  }

  /** The single shuffles are what OP_PICK and OP_ROLL do at their depth. */
  lemma DupIsPick(s: Stack, a: Elem, env: Env)
    ensures At(OP_PICK, s + [a], 0, env) == Ok(Shuffled(OP_DUP, s + [a]))
  {
    OneEffects(s, a);
    hide *;
    RollAt(s, a, [], env);
    assert [a] + [] == [a] && [a] + [] + [a] == [a, a];
  }

  lemma SwapIsRoll(s: Stack, a: Elem, b: Elem, env: Env)
    ensures At(OP_PICK, s + [a, b], 1, env) == Ok(Shuffled(OP_OVER, s + [a, b]))
    ensures At(OP_ROLL, s + [a, b], 1, env) == Ok(Shuffled(OP_SWAP, s + [a, b]))
  {
    TwoEffects(s, a, b);
    hide *;
    RollAt(s, a, [b], env);
    assert [a] + [b] == [a, b] && [a] + [b] + [a] == [a, b, a] && [b] + [a] == [b, a];
  }

  lemma RotIsRoll(s: Stack, a: Elem, b: Elem, c: Elem, env: Env)
    ensures At(OP_ROLL, s + [a, b, c], 2, env) == Ok(Shuffled(OP_ROT, s + [a, b, c]))
  {
    RotEffect(s, a, b, c);
    hide *;
    RollAt(s, a, [b, c], env);
    assert [a] + [b, c] == [a, b, c] && [b, c] + [a] == [b, c, a];
  }

  /** The others are made of those: OP_NIP, OP_TUCK, and the copies, which dropping undoes. */
  lemma CompoundShuffles(s: Stack, a: Elem, b: Elem)
    ensures Shuffled(OP_NIP, s + [a, b]) == Shuffled(OP_DROP, Shuffled(OP_SWAP, s + [a, b]))
    ensures Shuffled(OP_TUCK, s + [a, b]) == Shuffled(OP_OVER, Shuffled(OP_SWAP, s + [a, b]))
    ensures Shuffled(OP_2DUP, s + [a, b]) == Shuffled(OP_OVER, Shuffled(OP_OVER, s + [a, b]))
  {
    TwoEffects(s, a, b);
    TwoEffects(s, b, a);
    OneEffects(s + [b], a);
    TwoEffects(s + [a], b, a);
    CopyEffects(s, a, b, a);
    hide Shuffled;
    assert s + [b] + [a] == s + [b, a] && s + [a] + [b, a] == s + [a, b, a] && s + [a] + [b, a, b] == s + [a, b, a, b];
  }

  /** And the pair shuffles are those, done twice over. */
  lemma PairsAreRolls(s: Stack, a: Elem, b: Elem, c: Elem, d: Elem, e: Elem, f: Elem, env: Env)
    ensures At(OP_PICK, s + [a, b, c, d], 3, env) == Ok(s + [a, b, c, d, a])
    ensures At(OP_PICK, s + [a, b, c, d, a], 3, env) == Ok(Shuffled(OP_2OVER, s + [a, b, c, d]))
    ensures At(OP_ROLL, s + [a, b, c, d], 3, env) == Ok(s + [b, c, d, a])
    ensures At(OP_ROLL, s + [b, c, d, a], 3, env) == Ok(Shuffled(OP_2SWAP, s + [a, b, c, d]))
    ensures At(OP_ROLL, s + [a, b, c, d, e, f], 5, env) == Ok(s + [b, c, d, e, f, a])
    ensures At(OP_ROLL, s + [b, c, d, e, f, a], 5, env) == Ok(Shuffled(OP_2ROT, s + [a, b, c, d, e, f]))
  {
    PairEffects(s, a, b, c, d, e, f);
    hide *;
    RollAt(s, a, [b, c, d], env);
    RollAt(s + [a], b, [c, d, a], env);
    RollAt(s, b, [c, d, a], env);
    RollAt(s, a, [b, c, d, e, f], env);
    RollAt(s, b, [c, d, e, f, a], env);
    assert [a] + [b, c, d] == [a, b, c, d] && [a] + [b, c, d] + [a] == [a, b, c, d, a];
    assert s + [a] + ([b] + [c, d, a]) == s + [a, b, c, d, a];
    assert s + [a] + ([b] + [c, d, a] + [b]) == s + [a, b, c, d, a, b];
    assert [b, c, d] + [a] == [b, c, d, a] && [b] + [c, d, a] == [b, c, d, a] && [c, d, a] + [b] == [c, d, a, b];
    assert [a] + [b, c, d, e, f] == [a, b, c, d, e, f] && [b, c, d, e, f] + [a] == [b, c, d, e, f, a];
    assert [b] + [c, d, e, f, a] == [b, c, d, e, f, a] && [c, d, e, f, a] + [b] == [c, d, e, f, a, b];
  }

  /** The binary number opcodes take the lower element as their first operand. */
  lemma ArithmeticEffects(s: Stack, a: int, b: int, env: Env)
    requires Num.Abs(a) < 0x8000_0000 && Num.Abs(b) < 0x8000_0000
    ensures forall op :: op != OP_NUMEQUALVERIFY ==>
      BinaryOp(op, s + [Num.Encode(a), Num.Encode(b)], env) == Ok(s + [Num.Encode(Binary(op, a, b))])
    ensures BinaryOp(OP_NUMEQUALVERIFY, s + [Num.Encode(a), Num.Encode(b)], env)
      == if a == b then Ok(s) else Err(NumEqualVerify)
  {
    hide PopNumber, Num.Encode;
    PopNumberReadsBack(s + [Num.Encode(a)], b, env);
    PopNumberReadsBack(s, a, env);
    assert s + [Num.Encode(a), Num.Encode(b)] == s + [Num.Encode(a)] + [Num.Encode(b)];
  }

  /** OP_WITHIN takes value, minimum and maximum in that order; the maximum is excluded. */
  lemma WithinEffect(s: Stack, v: int, min: int, max: int, env: Env)
    requires Num.Abs(v) < 0x8000_0000 && Num.Abs(min) < 0x8000_0000 && Num.Abs(max) < 0x8000_0000
    ensures WithinOp(s + [Num.Encode(v), Num.Encode(min), Num.Encode(max)], env) == Ok(s + [Bool(min <= v < max)])
  {
    hide PopNumber, Num.Encode;
    var three := s + [Num.Encode(v), Num.Encode(min), Num.Encode(max)];
    assert three == s + [Num.Encode(v), Num.Encode(min)] + [Num.Encode(max)];
    assert s + [Num.Encode(v), Num.Encode(min)] == s + [Num.Encode(v)] + [Num.Encode(min)];
    PopNumberReadsBack(s + [Num.Encode(v), Num.Encode(min)], max, env);
    PopNumberReadsBack(s + [Num.Encode(v)], min, env);
    PopNumberReadsBack(s, v, env);
  }

  /**
   * A conditional takes its branch by the truth of the top element, OP_ELSE takes the other one, two of them
   * cancel, and OP_ENDIF restores the conditions of before.
   */
  lemma ConditionalBrackets(m: Machine, s: Stack, top: Elem, offset: nat, next: nat, env: Env)
    requires m.stack == s + [top] && Executing(m) && (top == [] || top == [1])
    ensures var entered := ControlOp(OP_IF, m, offset, next, env);
      && entered.Ok? && (Executing(entered.value) <==> top == [1]) && entered.value.stack == s
      && ControlOp(OP_ENDIF, entered.value, offset, next, env) == Ok(m.(stack := s))
      && var flipped := ControlOp(OP_ELSE, entered.value, offset, next, env);
        && flipped == ControlOp(OP_NOTIF, m, offset, next, env)
        && (Executing(flipped.value) <==> top == [])
        && ControlOp(OP_ELSE, flipped.value, offset, next, env) == entered
  {
    TruthOfBools();
    hide Num.DecodeUnchecked, Executing, TimeLock;
    var value := top == [1];
    assert Pop(m.stack) == Ok((top, s));
    var yes, no := m.cond + [value], m.cond + [!value];
    ExecutingPush(m.(stack := s), value);
    ExecutingPush(m.(stack := s), !value);
    SameConditions(m, m.(stack := s));
    assert yes[..|m.cond|] == m.cond && yes[|m.cond| := !value] == no && no[|m.cond| := value] == yes;
  }

  lemma ExecutingPush(m: Machine, b: bool)
    ensures Executing(m.(cond := m.cond + [b])) <==> Executing(m) && b
  {
    var c := m.cond + [b];
    assert b in c;
    assert forall x :: x in c <==> x in m.cond || x == b;
  }

  lemma SameConditions(m: Machine, n: Machine)
    requires m.cond == n.cond
    ensures Executing(m) == Executing(n)
  {
  }

  lemma TruthOfBools()
    ensures !Num.Truthy([]) && Num.Truthy([1])
  {
    assert Num.Encode(1) == [1] by { assert Num.Magnitude(1) == [1] + Num.Magnitude(0); }
    Num.DecodeEncode(1);
  }

  /**
   * OP_CHECKMULTISIG on any stack its arguments can be read from: it consumes them, charges one operation per key,
   * and leaves true exactly when the signatures can be assigned to the keys in order. NULLFAIL turns the failure
   * into an error exactly when one of the signatures left over is not empty.
   */
  lemma MultisigDecides(m: Machine, l: Layout, env: Env)
    requires Legacy(env.version) && ReadLayout(m, env) == Ok(l) && |l.sigs| <= |l.keys|
    requires NoErrors(MultisigOracle(m.codeSep, env), l.sigs, l.keys)
    ensures var scan := ScanFrom(MultisigOracle(m.codeSep, env), l.sigs, l.keys, 0, 0);
      && scan.Matched? && scan.used <= |l.sigs| && (scan.used == |l.sigs| <==> scan.success)
      && (scan.success <==> Assignable(MultisigOracle(m.codeSep, env), l.sigs, l.keys))
      && MultisigOp(OP_CHECKMULTISIG, m, env)
        == if !scan.success && env.flags.nullFail && SomeNonEmpty(l.sigs[scan.used..]) then Err(SigNullFail)
           else Ok(m.(stack := l.rest + [if scan.success then [1] else []], ops := m.ops + |l.keys|))
  {
    assert env.version != Tapscript;
    hide *;
    BoolMeans();
    var o := MultisigOracle(m.codeSep, env);
    ScanDecides(o, l.sigs, l.keys);
    UsedDecides(o, l.sigs, l.keys, 0, 0);
    VerdictMeans(ScanFrom(o, l.sigs, l.keys, 0, 0), l.sigs, env);
    MultisigAnswers(m, l, env);
  }

  lemma BoolMeans()
    ensures Bool(true) == [1] && Bool(false) == []
  {
  }

  /** What the opcode leaves once its arguments are read. */
  lemma MultisigAnswers(m: Machine, l: Layout, env: Env)
    requires env.version != Tapscript && ReadLayout(m, env) == Ok(l) && |l.sigs| <= |l.keys|
    ensures var v := Verdict(ScanFrom(MultisigOracle(m.codeSep, env), l.sigs, l.keys, 0, 0), l.sigs, env);
      MultisigOp(OP_CHECKMULTISIG, m, env) == if v.Err? then Err(v.error)
        else Ok(m.(stack := l.rest + [Bool(v.value)], ops := m.ops + |l.keys|))
  {
    hide ReadLayout, Verdict, ScanFrom, MultisigOracle, Bool;
  }

  lemma VerdictMeans(scan: Scan<ScriptError>, sigs: Stack, env: Env)
    requires scan.Matched? && scan.used <= |sigs|
    ensures Verdict(scan, sigs, env)
      == if !scan.success && env.flags.nullFail && SomeNonEmpty(sigs[scan.used..]) then Err(SigNullFail)
         else Ok(scan.success)
  {
    LeftOver(sigs, scan.used);
  }

  /** The stack layout those arguments are read from, the extra element below them. */
  lemma LayoutReadsBack(m: Machine, s: Stack, dummy: Elem, sigs: Stack, keys: Stack, env: Env)
    requires env.flags.nullDummy ==> dummy == []
    requires |sigs| <= |keys| <= MAX_PUBKEYS_PER_MULTISIG && m.ops + |keys| <= MAX_OPS_PER_SCRIPT
    requires m.stack == s + [dummy] + sigs + [Num.Encode(|sigs|)] + keys + [Num.Encode(|keys|)]
    ensures ReadLayout(m, env) == Ok(Layout(keys, sigs, s))
  {
    hide PopNumber, Num.Encode, Split, Pop;
    var lower := s + [dummy] + sigs + [Num.Encode(|sigs|)];
    PopNumberReadsBack(lower + keys, |keys|, env);
    SplitBack(lower, keys);
    PopNumberReadsBack(s + [dummy] + sigs, |sigs|, env);
    SplitBack(s + [dummy], sigs);
    PopBack(s, dummy);
  }

  lemma SplitBack(s: Stack, top: Stack)
    ensures Split(s + top, |top|) == (s, top)
  {
  }

  lemma PopBack(s: Stack, top: Elem)
    ensures Pop(s + [top]) == Ok((top, s))
  {
  }

  predicate SomeNonEmpty(elems: Stack) { exists e :: e in elems && e != [] }

  lemma LeftOver(sigs: Stack, used: nat)
    requires used <= |sigs|
    ensures SomeNonEmpty(sigs[used..]) <==> exists i :: used <= i < |sigs| && sigs[i] != []
  {
    if i: nat :| used <= i < |sigs| && sigs[i] != [] { assert sigs[i] in sigs[used..]; }
  }

  // ----------------------------------------------------------------- the loop

  /** `eval_script_with_data`. */
  method EvalScript(stack: Stack, env: Env, weight: int) returns (r: Result<Machine>)
    ensures r == if Legacy(env.version) && |env.script| > MAX_SCRIPT_SIZE then Err(ScriptSize)
                 else Run(Start(stack, weight), 0, env)
    ensures Within(Start(stack, weight), env, weight) && r.Ok? ==> Within(r.value, env, weight) && r.value.cond == []
  {
    hide Step, Ops.First, Within;
    if Legacy(env.version) && |env.script| > MAX_SCRIPT_SIZE { return Err(ScriptSize); }
    var m := Start(stack, weight);
    var instructions := new Ops.Instructions(env.script);
    while true
      invariant instructions.script == env.script && instructions.pos <= |env.script|
      invariant Run(Start(stack, weight), 0, env) == Run(m, instructions.pos, env)
      invariant Within(Start(stack, weight), env, weight) ==> Within(m, env, weight)
      decreases |env.script| - instructions.pos
    {
      var offset := instructions.pos;
      var item := instructions.Next();
      match item {
        case End => break;
        case BadOpcode => return Err(BadOpcode);
        case Op(op, data, n) =>
          var after := Step(op, data, m, offset, offset + n, env);
          if Within(m, env, weight) { StepKeepsLimits(op, data, m, offset, offset + n, env, weight); }
          if after.Err? { return Err(after.error); }
          m := after.value;
      }
    }
    if m.cond != [] { return Err(UnbalancedConditional); }
    return Ok(m);
  }

  // ------------------------------------------------------------ witness scripts

  predicate HasOpSuccess(chunks: seq<seq<byte>>) {
    exists i :: 0 <= i < |chunks| && chunks[i] != [] && IsOpSuccess(chunks[i][0])
  }

  /** What the rules around a witness script refuse or accept before it runs at all. */
  function Prelude(stack: Stack, env: Env): Option<Result<()>> {
    var parsed := Ops.Parse(env.script);
    if env.version == Tapscript && HasOpSuccess(parsed.chunks) then
      Some(if env.flags.discourageOpSuccess then Err(DiscourageOpSuccess) else Ok(()))
    else if env.version == Tapscript && parsed.tail != [] then Some(Err(BadOpcode))
    else if env.version == Tapscript && |stack| > MAX_STACK_SIZE then Some(Err(StackSize))
    else if !SmallElements(stack) then Some(Err(PushSize))
    else None
  }

  function WitnessVerdict(stack: Stack, env: Env, weight: int): Result<()> {
    if Prelude(stack, env).Some? then Prelude(stack, env).value
    else if Legacy(env.version) && |env.script| > MAX_SCRIPT_SIZE then Err(ScriptSize)
    else
      var m :- Run(Start(stack, weight), 0, env);
      if |m.stack| != 1 then Err(CleanStack)
      else if !Num.Truthy(m.stack[0]) then Err(EvalFalse)
      else Ok(())
  }

  lemma OpSuccessCons(c: seq<byte>, rest: seq<seq<byte>>)
    requires c != []
    ensures HasOpSuccess([c] + rest) <==> IsOpSuccess(c[0]) || HasOpSuccess(rest)
  {
    hide IsOpSuccess;
    var all := [c] + rest;
    assert all[0] == c;
    assert forall i :: 0 < i < |all| ==> all[i] == rest[i - 1];
    assert forall i :: 0 <= i < |rest| ==> rest[i] == all[i + 1];
  }

  lemma ParseStep(s: seq<byte>)
    ensures var p := Ops.First(s);
      if p.Op?
      then Ops.Parse(s).tail == Ops.Parse(s[p.size..]).tail
        && (HasOpSuccess(Ops.Parse(s).chunks) <==> IsOpSuccess(p.opcode) || HasOpSuccess(Ops.Parse(s[p.size..]).chunks))
      else !HasOpSuccess(Ops.Parse(s).chunks) && (Ops.Parse(s).tail == [] <==> p.End?)
  {
    var p := Ops.First(s);
    if p.Op? {
      var rest := Ops.Parse(s[p.size..]).chunks;
      var all := Ops.Parse(s).chunks;
      assert all == [s[..p.size]] + rest;
      assert s[..p.size][0] == p.opcode;
      OpSuccessCons(s[..p.size], rest);
    }
  }

  /** The scan for OP_SUCCESSx, which stops at the first hit and so never sees a malformed tail behind it. */
  method ScanForSuccess(script: seq<byte>) returns (r: Result<bool>)
    ensures r == if HasOpSuccess(Ops.Parse(script).chunks) then Ok(true)
                 else if Ops.Parse(script).tail != [] then Err(BadOpcode)
                 else Ok(false)
  {
    hide HasOpSuccess, Ops.Parse, Ops.First, IsOpSuccess;
    var instructions := new Ops.Instructions(script);
    assert script[0..] == script;
    while true
      invariant instructions.script == script && instructions.pos <= |script|
      invariant HasOpSuccess(Ops.Parse(script).chunks) <==> HasOpSuccess(Ops.Parse(script[instructions.pos..]).chunks)
      invariant Ops.Parse(script).tail == Ops.Parse(script[instructions.pos..]).tail
      decreases |script| - instructions.pos
    {
      ghost var rest := script[instructions.pos..];
      ParseStep(rest);
      var item := instructions.Next();
      match item {
        case End => return Ok(false);
        case BadOpcode => return Err(BadOpcode);
        case Op(op, _, n) =>
          if IsOpSuccess(op) { return Ok(true); }
          assert rest[n..] == script[instructions.pos..];
      }
    }
  }

  /** `execute_witness_script`. */
  method ExecuteWitnessScript(stack: Stack, env: Env, weight: int) returns (r: Result<()>)
    ensures r == WitnessVerdict(stack, env, weight)
  {
    hide Ops.Parse, HasOpSuccess, Run, Num.DecodeUnchecked;
    if env.version == Tapscript {
      var found := ScanForSuccess(env.script);
      if found.Err? { return Err(found.error); }
      if found.value {
        return if env.flags.discourageOpSuccess then Err(DiscourageOpSuccess) else Ok(());
      }
      if |stack| > MAX_STACK_SIZE { return Err(StackSize); }
    }
    for i := 0 to |stack|
      invariant SmallElements(stack[..i])
    {
      if |stack[i]| > MAX_SCRIPT_ELEMENT_SIZE { return Err(PushSize); }
      assert stack[..i + 1] == stack[..i] + [stack[i]];
    }
    assert stack[..|stack|] == stack;
    var result := EvalScript(stack, env, weight);
    if result.Err? { return Err(result.error); }
    var left := result.value.stack;
    if |left| != 1 { return Err(CleanStack); }
    if !Num.Truthy(left[0]) { return Err(EvalFalse); }
    return Ok(());
  }

  /** `serialized_witness_size`: the length of the witness as it goes over the wire. */
  method SerializedWitnessSize(items: seq<Elem>) returns (size: nat)
    ensures size == |VarList(VarBytes, items)|
  {
    hide Transaction.StackSize;
    size := |VarInt(|items|)|;
    ghost var prefix := size;
    assert items[0..] == items;
    for i := 0 to |items|
      invariant size + Transaction.StackSize(items[i..]) == prefix + Transaction.StackSize(items)
    {
      assert items[i..][1..] == items[i + 1..];
      Transaction.VarIntLength(|items[i]|);
      StackSizeStep(items[i..]);
      size := size + |VarInt(|items[i]|)| + |items[i]|;
    }
    StackSizeStep(items[|items|..]);
    Transaction.StackSizeIsLength(items);
  }

  lemma StackSizeStep(items: seq<Elem>)
    ensures items == [] ==> Transaction.StackSize(items) == 0
    ensures items != [] ==>
      Transaction.StackSize(items) == VarIntSize(|items[0]|) + |items[0]| + Transaction.StackSize(items[1..])
  {
  }

  /**
   * The budget of BIP 342: whatever tapscript runs with whatever witness, every machine it visits is within
   * the limits and has passed at most (witness size + 50) / 50 signature checks.
   */
  lemma TapscriptBudget(items: seq<Elem>, stack: Stack, env: Env, v: Machine)
    requires env.version == Tapscript && Prelude(stack, env).None?
    requires v in Visited(Start(stack, |VarList(VarBytes, items)| + VALIDATION_WEIGHT_OFFSET), 0, env)
    ensures Within(v, env, |VarList(VarBytes, items)| + VALIDATION_WEIGHT_OFFSET)
    ensures v.checks <= (|VarList(VarBytes, items)| + VALIDATION_WEIGHT_OFFSET) / VALIDATION_WEIGHT_PER_SIGOP_PASSED
  {
    hide Visited, Run, Ops.Parse, HasOpSuccess, VarList;
    var budget := |VarList(VarBytes, items)| + VALIDATION_WEIGHT_OFFSET;
    RunKeepsLimits(Start(stack, budget), 0, env, budget);
    assert Within(v, env, budget);
  }
}
