/** What the opcodes answer, in plain terms, and what that makes of a whole script. */
module ScriptMeaning {
  import opened Bytes
  import opened Opcodes
  import opened Multisig
  import opened Interpreter
  import Num = ScriptNum
  import Ops = ScriptOps

  /** The machine after an opcode that only changes its stack. */
  ghost predicate Leaves(op: byte, m: Machine, at: (nat, nat), env: Env, stack: Stack) {
    Execute(op, [], m, at.0, at.1, env) == Ok(m.(stack := stack))
  }

  ghost predicate Fails(op: byte, m: Machine, at: (nat, nat), env: Env, e: ScriptError) {
    Execute(op, [], m, at.0, at.1, env) == Err(e)
  }

  function Word(b: bool): Elem { if b then [1] else [] }

  ghost predicate Small(n: int) { Num.Abs(n) < 0x8000_0000 }

  lemma StackLeaves(op: byte, m: Machine, at: (nat, nat), env: Env)
    requires op > OP_PUSHDATA4 && IsStackOp(op)
    ensures StackOp(op, m.stack, env).Ok? ==> Leaves(op, m, at, env, StackOp(op, m.stack, env).value)
    ensures StackOp(op, m.stack, env).Err? ==> Fails(op, m, at, env, StackOp(op, m.stack, env).error)
  {
    hide StackOp, IsStackOp;
  }

  // --------------------------------------------------------------------- signatures

  /**
   * OP_CHECKSIG on a signature with its key on top, before tapscript: true exactly when the signature is not empty and
   * the checker accepts it for that key and the script code; NULLFAIL refuses a failure that is not empty.
   */
  lemma CheckSigAnswers(m: Machine, s: Stack, sig: Elem, key: Elem, code: seq<byte>, at: (nat, nat), env: Env)
    requires Legacy(env.version) && m.stack == s + [sig, key] && ScriptCode(sig, m.codeSep, env) == Ok(code)
    requires env.checker.sigEncoding(sig).None? && env.checker.keyEncoding(key, env.version).None?
    ensures var good := sig != [] && env.checker.ecdsa(sig, key, code, env.version);
      var refused := !good && env.flags.nullFail && sig != [];
      && (refused ==> Fails(OP_CHECKSIG, m, at, env, SigNullFail) && Fails(OP_CHECKSIGVERIFY, m, at, env, SigNullFail))
      && (!refused ==> Leaves(OP_CHECKSIG, m, at, env, s + [Word(good)]))
      && (good ==> Leaves(OP_CHECKSIGVERIFY, m, at, env, s))
      && (!good && !refused ==> Fails(OP_CHECKSIGVERIFY, m, at, env, CheckSigVerify))
  {
    hide ScriptCode, StackOp, TimeLock;
    TopTwo(s, sig, key);
  }

  lemma TopTwo(s: Stack, a: Elem, b: Elem)
    ensures Pop(s + [a, b]) == Ok((b, s + [a])) && Pop(s + [a]) == Ok((a, s))
  {
    assert (s + [a, b])[..|s| + 1] == s + [a];
  }

  /** The rules asked before the checker, in order: script code, signature encoding, key encoding. */
  lemma CheckSigRefuses(m: Machine, s: Stack, sig: Elem, key: Elem, at: (nat, nat), env: Env)
    requires Legacy(env.version) && m.stack == s + [sig, key]
    ensures var code := ScriptCode(sig, m.codeSep, env);
      var bad, wrong := env.checker.sigEncoding(sig), env.checker.keyEncoding(key, env.version);
      && (code.Err? ==> Fails(OP_CHECKSIG, m, at, env, code.error))
      && (code.Ok? && bad.Some? ==> Fails(OP_CHECKSIG, m, at, env, bad.value))
      && (code.Ok? && bad.None? && wrong.Some? ==> Fails(OP_CHECKSIG, m, at, env, wrong.value))
  {
    hide ScriptCode, StackOp, TimeLock;
    TopTwo(s, sig, key);
  }

  /**
   * The script code: from the last separator on and, before segwit, without any push of the signature itself, which
   * CONST_SCRIPTCODE turns into an error, as it does any separator.
   */
  lemma ScriptCodeMeans(sig: Elem, codeSep: nat, env: Env)
    requires codeSep <= |env.script|
    ensures var code, r := env.script[codeSep..], ScriptCode(sig, codeSep, env);
      var found := Ops.Occurrences(Ops.Parse(code).chunks, Ops.PushData(sig));
      var constant := env.flags.constScriptCode;
      && (env.version != Base ==> r == Ok(code))
      && (env.version == Base && constant && found > 0 ==> r == Err(SigFindAndDelete))
      && (env.version == Base && constant && found == 0 && HasCodeSeparator(env.script) ==> r == Err(OpCodeseparator))
      && (env.version == Base && found == 0 && !(constant && HasCodeSeparator(env.script)) ==> r == Ok(code))
      && (env.version == Base && found > 0 && !constant ==> r.Ok? && WithoutPush(code, r.value, Ops.PushData(sig)))
  {
    hide Ops.Parse, Ops.PushData, Ops.Occurrences, HasCodeSeparator, Ops.Stripped;
    var code := env.script[codeSep..];
    Ops.StrippedFacts(code, Ops.PushData(sig));
    NothingStripped(code, Ops.PushData(sig));
  }

  /** Every push is gone, and nothing but pushes. */
  ghost predicate WithoutPush(code: seq<byte>, left: seq<byte>, push: seq<byte>) {
    && Ops.Occurrences(Ops.Parse(left).chunks, push) == 0
    && |left| + Ops.Occurrences(Ops.Parse(code).chunks, push) * |push| == |code|
    && left == Ops.Stripped(code, push)
  }

  lemma {:induction false} NoneWithout(chunks: seq<seq<byte>>, c: seq<byte>)
    requires Ops.Occurrences(chunks, c) == 0
    ensures Ops.Without(chunks, c) == chunks
  {
    if chunks != [] { NoneWithout(chunks[1..], c); }
  }

  lemma NothingStripped(s: seq<byte>, c: seq<byte>)
    ensures Ops.Occurrences(Ops.Parse(s).chunks, c) == 0 ==> Ops.Stripped(s, c) == s
  {
    hide Ops.Parse, Ops.Flatten, Ops.Without, Ops.Occurrences;
    Ops.ParseChunks(s);
    if Ops.Occurrences(Ops.Parse(s).chunks, c) == 0 { NoneWithout(Ops.Parse(s).chunks, c); }
  }

  /** What a tapscript check does to the budget. */
  function Charged(m: Machine, sig: Elem): Machine {
    if sig == [] then m else m.(weight := m.weight - 50, checks := m.checks + 1)
  }

  /**
   * A tapscript check: the budget first, then the key. With a 32-byte key a signature that is not empty must satisfy
   * the checker; an empty one is false; other keys are taken on trust unless that is discouraged.
   */
  function TapscriptAnswer(m: Machine, sig: Elem, key: Elem, env: Env): Result<bool> {
    if sig != [] && m.weight < 50 then Err(TapscriptValidationWeight)
    else if key == [] then Err(PubkeyType)
    else if |key| == 32 && sig != [] && env.checker.schnorr(sig, key, m.sepPos).Some?
    then Err(env.checker.schnorr(sig, key, m.sepPos).value)
    else if |key| != 32 && env.flags.discourageUpgradablePubkeyType then Err(DiscourageUpgradablePubkeyType)
    else Ok(sig != [])
  }

  lemma TapscriptMeans(m: Machine, s: Stack, sig: Elem, key: Elem, env: Env)
    ensures var v := TapscriptAnswer(m, sig, key, env);
      TapscriptCheck(m.(stack := s), sig, key, env)
        == if v.Err? then Err(v.error) else Ok((v.value, Charged(m, sig).(stack := s)))
  {
  }

  lemma TapscriptAnswers(m: Machine, s: Stack, sig: Elem, key: Elem, at: (nat, nat), env: Env)
    requires env.version == Tapscript && m.stack == s + [sig, key]
    ensures var v, paid := TapscriptAnswer(m, sig, key, env), Charged(m, sig);
      && Execute(OP_CHECKSIG, [], m, at.0, at.1, env)
        == (if v.Err? then Err(v.error) else Ok(paid.(stack := s + [Word(v.value)])))
      && Execute(OP_CHECKSIGVERIFY, [], m, at.0, at.1, env)
        == (if v.Err? then Err(v.error) else if v.value then Ok(paid.(stack := s)) else Err(CheckSigVerify))
  {
    hide StackOp, TimeLock, TapscriptCheck, TapscriptAnswer, Charged, EcdsaCheck, MultisigOp, Conditional;
    TopTwo(s, sig, key);
    TapscriptMeans(m, s, sig, key, env);
  }

  /** OP_CHECKSIGADD counts: signature, number, key on top. */
  lemma CheckSigAddAnswers(m: Machine, s: Stack, sig: Elem, n: int, key: Elem, at: (nat, nat), env: Env)
    requires m.stack == s + [sig, Num.Encode(n), key] && Small(n)
    ensures env.version != Tapscript ==> Fails(OP_CHECKSIGADD, m, at, env, BadOpcode)
    ensures var v, paid := TapscriptAnswer(m, sig, key, env), Charged(m, sig);
      var counted := s + [Num.Encode(if sig == [] then n else n + 1)];
      var r := Execute(OP_CHECKSIGADD, [], m, at.0, at.1, env);
      env.version == Tapscript ==> r == if v.Err? then Err(v.error) else Ok(paid.(stack := counted))
  {
    hide StackOp, TimeLock, PopNumber, Num.Encode;
    assert m.stack == (s + [sig] + [Num.Encode(n)]) + [key];
    PopBack(s + [sig] + [Num.Encode(n)], key);
    PopNumberReadsBack(s + [sig], n, env);
    PopBack(s, sig);
    TapscriptMeans(m, s, sig, key, env);
    hide Pop, TapscriptCheck, TapscriptAnswer, Charged, MultisigOp, Conditional;
  }

  /** What the matching loop of OP_CHECKMULTISIG asks about a signature and a key. */
  lemma MultisigAsks(sig: Elem, key: Elem, codeSep: nat, env: Env)
    ensures var o, code := MultisigOracle(codeSep, env), ScriptCode(sig, codeSep, env);
      && (code.Ok? ==> (o.matches(sig, key) <==> sig != [] && env.checker.ecdsa(sig, key, code.value, env.version)))
      && o.sigError(sig) == env.checker.sigEncoding(sig) && o.keyError(key) == env.checker.keyEncoding(key, env.version)
      && o.codeError(sig) == if code.Ok? then None else Some(code.error)
  {
    hide ScriptCode;
  }

  /** The counts it refuses: more than 20 keys, more operations than allowed, more signatures than keys. */
  lemma CountsRefused(m: Machine, s: Stack, n: int, env: Env)
    requires m.stack == s + [Num.Encode(n)] && Small(n)
    ensures n < 0 || n > 20 ==> ReadLayout(m, env) == Err(PubkeyCount)
    ensures 0 <= n <= 20 && m.ops + n > 201 ==> ReadLayout(m, env) == Err(OpCount)
    ensures 0 <= n <= 20 && m.ops + n <= 201 && |s| < n ==> ReadLayout(m, env) == Err(InvalidStackOperation)
  {
    hide PopNumber, Num.Encode, Split, Pop;
    PopNumberReadsBack(s, n, env);
  }

  lemma SignatureCountRefused(m: Machine, s: Stack, k: int, keys: Stack, env: Env)
    requires m.stack == s + [Num.Encode(k)] + keys + [Num.Encode(|keys|)] && Small(k)
    requires |keys| <= 20 && m.ops + |keys| <= 201
    ensures k < 0 || k > |keys| ==> ReadLayout(m, env) == Err(SigCount)
    ensures 0 <= k <= |keys| && |s| < k ==> ReadLayout(m, env) == Err(InvalidStackOperation)
  {
    hide PopNumber, Num.Encode, Split, Pop;
    PopNumberReadsBack(s + [Num.Encode(k)] + keys, |keys|, env);
    SplitBack(s + [Num.Encode(k)], keys);
    PopNumberReadsBack(s, k, env);
  }

  // ------------------------------------------------------------------ the other shuffles

  /** OP_IFDUP copies what is true, OP_DEPTH counts the stack, OP_SIZE measures the top. */
  lemma MeasureAnswers(m: Machine, s: Stack, top: Elem, at: (nat, nat), env: Env)
    requires m.stack == s + [top]
    ensures Leaves(OP_IFDUP, m, at, env, if Num.DecodeUnchecked(top) != 0 then s + [top, top] else s + [top])
    ensures Leaves(OP_DEPTH, m, at, env, s + [top, Num.Encode(|s| + 1)])
    ensures Leaves(OP_SIZE, m, at, env, s + [top, Num.Encode(|top|)])
  {
    StackLeaves(OP_IFDUP, m, at, env);
    StackLeaves(OP_DEPTH, m, at, env);
    StackLeaves(OP_SIZE, m, at, env);
    assert s + [top] + [top] == s + [top, top];
    assert s + [top] + [Num.Encode(|s| + 1)] == s + [top, Num.Encode(|s| + 1)];
    assert s + [top] + [Num.Encode(|top|)] == s + [top, Num.Encode(|top|)];
    hide Leaves, Fails, Num.Encode, Num.DecodeUnchecked, PickOrRoll, UnaryOp, BinaryOp, WithinOp, EqualOp;
  }

  /** How many elements each shuffle needs. */
  function Needs(op: byte): nat {
    match op
    case 0x71 => 6 case 0x70 => 4 case 0x72 => 4 case 0x6f => 3 case 0x7b => 3
    case 0x6d => 2 case 0x6e => 2 case 0x77 => 2 case 0x78 => 2 case 0x7c => 2 case 0x7d => 2
    case 0x74 => 0
    case _ => 1
  }

  lemma ShuffleNeeds(op: byte, m: Machine, at: (nat, nat), env: Env)
    requires IsShuffle(op)
    ensures |m.stack| < Needs(op) <==> Fails(op, m, at, env, InvalidStackOperation)
  {
    StackLeaves(op, m, at, env);
    hide Shuffled, Num.Encode, PickOrRoll, UnaryOp, BinaryOp, WithinOp, EqualOp;
  }

  // ------------------------------------------------------------------------ numbers

  lemma UnaryLeaves(op: byte, m: Machine, s: Stack, a: int, at: (nat, nat), env: Env)
    requires IsUnary(op) && m.stack == s + [Num.Encode(a)] && Small(a)
    ensures Leaves(op, m, at, env, s + [Num.Encode(Unary(op, a))])
  {
    StackLeaves(op, m, at, env);
    hide PopNumber, Num.Encode, Unary, Shuffle, PickOrRoll, Leaves;
    PopNumberReadsBack(s, a, env);
  }

  /** The unary number opcodes on an encoded operand. */
  lemma UnaryAnswers(m: Machine, s: Stack, a: int, at: (nat, nat), env: Env)
    requires m.stack == s + [Num.Encode(a)] && Small(a)
    ensures Leaves(OP_1ADD, m, at, env, s + [Num.Encode(a + 1)])
    ensures Leaves(OP_1SUB, m, at, env, s + [Num.Encode(a - 1)])
    ensures Leaves(OP_NEGATE, m, at, env, s + [Num.Encode(-a)])
    ensures Leaves(OP_ABS, m, at, env, s + [Num.Encode(if a < 0 then -a else a)])
    ensures Leaves(OP_NOT, m, at, env, s + [Num.Encode(if a == 0 then 1 else 0)])
    ensures Leaves(OP_0NOTEQUAL, m, at, env, s + [Num.Encode(if a == 0 then 0 else 1)])
  {
    hide Leaves, Num.Encode;
    UnaryLeaves(OP_1ADD, m, s, a, at, env);
    UnaryLeaves(OP_1SUB, m, s, a, at, env);
    UnaryLeaves(OP_NEGATE, m, s, a, at, env);
    UnaryLeaves(OP_ABS, m, s, a, at, env);
    UnaryLeaves(OP_NOT, m, s, a, at, env);
    UnaryLeaves(OP_0NOTEQUAL, m, s, a, at, env);
  }

  lemma BinaryLeaves(op: byte, m: Machine, s: Stack, a: int, b: int, at: (nat, nat), env: Env)
    requires IsBinary(op) && op != OP_NUMEQUALVERIFY && Small(a) && Small(b)
    requires m.stack == s + [Num.Encode(a), Num.Encode(b)]
    ensures Leaves(op, m, at, env, s + [Num.Encode(Binary(op, a, b))])
  {
    StackLeaves(op, m, at, env);
    hide Num.Encode, Binary, BinaryOp, Leaves;
    ArithmeticEffects(s, a, b, env);
    assert BinaryOp(op, m.stack, env) == Ok(s + [Num.Encode(Binary(op, a, b))]);
  }

  function Truth(b: bool): int { if b then 1 else 0 }

  /** The binary number opcodes that compute a number, lower operand first. */
  lemma BinaryAnswers(m: Machine, s: Stack, a: int, b: int, at: (nat, nat), env: Env)
    requires m.stack == s + [Num.Encode(a), Num.Encode(b)] && Small(a) && Small(b)
    ensures Leaves(OP_ADD, m, at, env, s + [Num.Encode(a + b)])
    ensures Leaves(OP_SUB, m, at, env, s + [Num.Encode(a - b)])
    ensures Leaves(OP_MIN, m, at, env, s + [Num.Encode(if b < a then b else a)])
    ensures Leaves(OP_MAX, m, at, env, s + [Num.Encode(if b < a then a else b)])
    ensures Leaves(OP_BOOLAND, m, at, env, s + [Num.Encode(Truth(a != 0 && b != 0))])
    ensures Leaves(OP_BOOLOR, m, at, env, s + [Num.Encode(Truth(a != 0 || b != 0))])
  {
    hide Leaves, Num.Encode;
    BinaryLeaves(OP_ADD, m, s, a, b, at, env);
    BinaryLeaves(OP_SUB, m, s, a, b, at, env);
    BinaryLeaves(OP_MIN, m, s, a, b, at, env);
    BinaryLeaves(OP_MAX, m, s, a, b, at, env);
    BinaryLeaves(OP_BOOLAND, m, s, a, b, at, env);
    BinaryLeaves(OP_BOOLOR, m, s, a, b, at, env);
  }

  /** And those that compare. */
  lemma ComparisonAnswers(m: Machine, s: Stack, a: int, b: int, at: (nat, nat), env: Env)
    requires m.stack == s + [Num.Encode(a), Num.Encode(b)] && Small(a) && Small(b)
    ensures Leaves(OP_NUMEQUAL, m, at, env, s + [Num.Encode(Truth(a == b))])
    ensures Leaves(OP_NUMNOTEQUAL, m, at, env, s + [Num.Encode(Truth(a != b))])
    ensures Leaves(OP_LESSTHAN, m, at, env, s + [Num.Encode(Truth(a < b))])
    ensures Leaves(OP_GREATERTHAN, m, at, env, s + [Num.Encode(Truth(b < a))])
    ensures Leaves(OP_LESSTHANOREQUAL, m, at, env, s + [Num.Encode(Truth(!(b < a)))])
    ensures Leaves(OP_GREATERTHANOREQUAL, m, at, env, s + [Num.Encode(Truth(!(a < b)))])
  {
    hide Leaves, Num.Encode;
    BinaryLeaves(OP_NUMEQUAL, m, s, a, b, at, env);
    BinaryLeaves(OP_NUMNOTEQUAL, m, s, a, b, at, env);
    BinaryLeaves(OP_LESSTHAN, m, s, a, b, at, env);
    BinaryLeaves(OP_GREATERTHAN, m, s, a, b, at, env);
    BinaryLeaves(OP_LESSTHANOREQUAL, m, s, a, b, at, env);
    BinaryLeaves(OP_GREATERTHANOREQUAL, m, s, a, b, at, env);
  }

  /** OP_1NEGATE and OP_1 to OP_16 push the number they are named after. */
  lemma SmallPushAnswers(n: int, m: Machine, at: (nat, nat), env: Env)
    requires n == -1 || 1 <= n <= 16
    ensures var op := if n == -1 then OP_1NEGATE else OP_1 + n - 1;
      Leaves(op, m, at, env, m.stack + [Num.Encode(n)]) && Number(Num.Encode(n), env, 4) == Ok(n)
  {
    hide Num.Encode;
    StackLeaves(if n == -1 then OP_1NEGATE else OP_1 + n - 1, m, at, env);
    hide Leaves;
    NumberReadsBack(n, env);
  }

  // --------------------------------------------------------- equality, hashes, verify

  lemma EqualAnswers(m: Machine, s: Stack, a: Elem, b: Elem, at: (nat, nat), env: Env)
    requires m.stack == s + [a, b]
    ensures Leaves(OP_EQUAL, m, at, env, s + [Word(a == b)])
    ensures a == b ==> Leaves(OP_EQUALVERIFY, m, at, env, s)
    ensures a != b ==> Fails(OP_EQUALVERIFY, m, at, env, EqualVerify)
  {
    StackLeaves(OP_EQUAL, m, at, env);
    StackLeaves(OP_EQUALVERIFY, m, at, env);
    TopTwo(s, a, b);
    hide Leaves, Fails, Num.Encode, Num.DecodeUnchecked, Shuffle, PickOrRoll, UnaryOp, BinaryOp, WithinOp;
  }

  lemma TopAnswers(m: Machine, s: Stack, top: Elem, op: byte, at: (nat, nat), env: Env)
    requires m.stack == s + [top] && IsHash(op)
    ensures Leaves(op, m, at, env, s + [env.checker.digest(op, top)])
    ensures Num.DecodeUnchecked(top) != 0 ==> Leaves(OP_VERIFY, m, at, env, s)
    ensures Num.DecodeUnchecked(top) == 0 ==> Fails(OP_VERIFY, m, at, env, Verify)
    ensures Fails(OP_RETURN, m, at, env, OpReturn)
  {
    StackLeaves(op, m, at, env);
    StackLeaves(OP_VERIFY, m, at, env);
    PopBack(s, top);
    assert Fails(OP_RETURN, m, at, env, OpReturn);
    hide Leaves, Fails, Num.Encode, Num.DecodeUnchecked, Shuffle, PickOrRoll, UnaryOp, BinaryOp, WithinOp, EqualOp;
  }

  /** The alt stack is last in, first out, and moving there and back changes nothing. */
  lemma AltStackAnswers(m: Machine, s: Stack, top: Elem, at: (nat, nat), env: Env)
    requires m.stack == s + [top]
    ensures var there := Execute(OP_TOALTSTACK, [], m, at.0, at.1, env);
      && there == Ok(m.(stack := s, alt := m.alt + [top]))
      && Execute(OP_FROMALTSTACK, [], there.value, at.0, at.1, env) == Ok(m)
    ensures m.alt == [] ==> Fails(OP_FROMALTSTACK, m, at, env, InvalidAltstackOperation)
  {
    hide StackOp, TimeLock, CheckSigOp, MultisigOp, Conditional;
    PopBack(s, top);
    assert (m.alt + [top])[..|m.alt|] == m.alt;
  }

  // --------------------------------------------------------------------- time locks

  /** The time locks look at the top number, up to five bytes of it, and leave the stack alone. */
  lemma LockTimeAnswers(m: Machine, s: Stack, n: int, at: (nat, nat), env: Env)
    requires m.stack == s + [Num.Encode(n)] && Num.Abs(n) < 0x80_0000_0000
    ensures var r := Execute(OP_CHECKLOCKTIMEVERIFY, [], m, at.0, at.1, env);
      && (n < 0 ==> r == Err(NegativeLocktime))
      && (n >= 0 && env.checker.lockTime(n) ==> r == Ok(m))
      && (n >= 0 && !env.checker.lockTime(n) ==> r == Err(UnsatisfiedLocktime))
  {
    hide StackOp, Num.Encode, Num.DecodeUnchecked, CheckSigOp, MultisigOp, Conditional;
    LongNumberReadsBack(n, env);
  }

  lemma SequenceAnswers(m: Machine, s: Stack, n: int, at: (nat, nat), env: Env)
    requires m.stack == s + [Num.Encode(n)] && Num.Abs(n) < 0x80_0000_0000
    ensures var r := Execute(OP_CHECKSEQUENCEVERIFY, [], m, at.0, at.1, env);
      var disabled := n / 0x8000_0000 % 2 == 1;
      && (n < 0 ==> r == Err(NegativeLocktime))
      && (n >= 0 && (disabled || env.checker.sequence(n)) ==> r == Ok(m))
      && (n >= 0 && !disabled && !env.checker.sequence(n) ==> r == Err(UnsatisfiedLocktime))
  {
    hide StackOp, Num.Encode, Num.DecodeUnchecked, CheckSigOp, MultisigOp, Conditional;
    LongNumberReadsBack(n, env);
  }

  lemma LongNumberReadsBack(n: int, env: Env)
    requires Num.Abs(n) < 0x80_0000_0000
    ensures Number(Num.Encode(n), env, 5) == Ok(n)
  {
    hide Num.Encode, Num.DecodeUnchecked, Num.IsMinimallyEncoded;
    Widths();
    Num.EncodeLength(n, 5);
    Num.DecodeEncode(n);
  }

  // -------------------------------------------------------------- the other controls

  /** OP_NOP does nothing; the NOPs kept for upgrades do nothing unless that is discouraged. */
  lemma NopAnswers(op: byte, m: Machine, at: (nat, nat), env: Env)
    requires op == OP_NOP1 || OP_NOP4 <= op <= OP_NOP10
    ensures Leaves(OP_NOP, m, at, env, m.stack)
    ensures if env.flags.discourageUpgradableNops then Fails(op, m, at, env, DiscourageUpgradableNops)
            else Leaves(op, m, at, env, m.stack)
  {
    hide StackOp, TimeLock, CheckSigOp, MultisigOp, Conditional;
  }

  /** A separator makes later signatures commit to the script behind it. */
  lemma SeparatorAnswers(m: Machine, at: (nat, nat), sig: Elem, env: Env)
    requires at.0 < 0x1_0000_0000 && at.1 <= |env.script|
    ensures var r := Execute(OP_CODESEPARATOR, [], m, at.0, at.1, env);
      && r.Ok? && r.value == m.(codeSep := at.1, sepPos := at.0)
      && (env.version != Base ==> ScriptCode(sig, r.value.codeSep, env) == Ok(env.script[at.1..]))
  {
    hide StackOp, TimeLock, CheckSigOp, MultisigOp, Conditional;
    ModSmall(at.0, 0x1_0000_0000);
  }

  /** When the element an OP_IF looks at must be empty or one, and what it does otherwise. */
  lemma IfAnswers(m: Machine, s: Stack, top: Elem, at: (nat, nat), env: Env)
    requires m.stack == s + [top] && Executing(m)
    ensures var strict := top != [] && top != [1];
      var r, n := Execute(OP_IF, [], m, at.0, at.1, env), Execute(OP_NOTIF, [], m, at.0, at.1, env);
      var value := Num.DecodeUnchecked(top) != 0;
      && (env.version == Tapscript && strict ==> r == Err(TapscriptMinimalIf) && n == r)
      && (env.version == WitnessV0 && env.flags.minimalIf && strict ==> r == Err(MinimalIf) && n == r)
      && (!strict || env.version == Base || (env.version == WitnessV0 && !env.flags.minimalIf) ==>
        && r == Ok(m.(stack := s, cond := m.cond + [value]))
        && n == Ok(m.(stack := s, cond := m.cond + [!value])))
  {
    hide StackOp, TimeLock, CheckSigOp, MultisigOp, Num.DecodeUnchecked, Executing;
    PopBack(s, top);
  }

  /** OP_CHECKMULTISIGVERIFY leaves nothing where OP_CHECKMULTISIG leaves true, and fails where that leaves false. */
  lemma MultisigVerifyAnswers(m: Machine, l: Layout, at: (nat, nat), env: Env)
    requires Legacy(env.version) && ReadLayout(m, env) == Ok(l)
    ensures var r := Execute(OP_CHECKMULTISIG, [], m, at.0, at.1, env);
      var v := Execute(OP_CHECKMULTISIGVERIFY, [], m, at.0, at.1, env);
      var after := m.(stack := l.rest, ops := m.ops + |l.keys|);
      || (r.Err? && v == r)
      || (r == Ok(after.(stack := l.rest + [[1]])) && v == Ok(after))
      || (r == Ok(after.(stack := l.rest + [[]])) && v == Err(CheckMultisigVerify))
  {
    hide StackOp, TimeLock, CheckSigOp, Conditional, ReadLayout, ScanFrom, MultisigOracle, Verdict;
    var verdict := Verdict(ScanFrom(MultisigOracle(m.codeSep, env), l.sigs, l.keys, 0, 0), l.sigs, env);
    if verdict.Ok? { assert Bool(true) == [1] && Bool(false) == []; }
  }

  /** A data push leaves its data, unless minimal pushes are demanded and this is not one. */
  lemma PushAnswers(op: byte, data: Elem, m: Machine, at: (nat, nat), env: Env)
    requires op <= OP_PUSHDATA4
    ensures Execute(op, data, m, at.0, at.1, env)
      == if env.flags.minimalData && !Ops.CheckMinimalPush(data, op) then Err(MinimalData)
         else Ok(m.(stack := m.stack + [data]))
  {
    hide Ops.CheckMinimalPush;
  }

  /** OP_ELSE and OP_ENDIF need an open conditional. */
  lemma UnopenedConditional(m: Machine, at: (nat, nat), env: Env)
    requires m.cond == []
    ensures Fails(OP_ELSE, m, at, env, UnbalancedConditional) && Fails(OP_ENDIF, m, at, env, UnbalancedConditional)
  {
    hide StackOp, TimeLock, CheckSigOp, MultisigOp, Conditional;
  }

  /** Bytes that name no opcode. */
  predicate Unknown(op: byte) {
    op == 0x50 || op == 0x62 || op == 0x65 || op == 0x66 || op == 0x89 || op == 0x8a || op > 0xba
  }

  lemma UnknownFails(op: byte, m: Machine, at: (nat, nat), env: Env)
    requires Unknown(op)
    ensures Fails(op, m, at, env, BadOpcode)
  {
    hide StackOp, TimeLock, CheckSigOp, MultisigOp, Conditional;
  }

  /** The success opcodes of tapscript are the disabled and the unknown bytes, apart from 0x65, 0x66 and 0xff. */
  lemma SuccessTable(op: byte, m: Machine, at: (nat, nat), env: Env)
    ensures IsOpSuccess(op) <==> (IsDisabled(op) || Unknown(op)) && op != 0x65 && op != 0x66 && op != 0xff
    ensures IsDisabled(op) ==> Fails(op, m, at, env, BadOpcode)
  {
    hide StackOp, TimeLock, CheckSigOp, MultisigOp, Conditional;
  }

  /** Numbers that are too long, and numbers that are not minimal where that is demanded. */
  lemma NumberRefused(e: Elem, n: nat, env: Env)
    ensures |e| > n ==> Number(e, env, n) == Err(UnknownError)
    ensures |e| <= n && env.flags.minimalData && !Num.IsMinimallyEncoded(e) ==> Number(e, env, n) == Err(MinimalData)
    ensures |e| <= n && (env.flags.minimalData ==> Num.IsMinimallyEncoded(e)) ==>
      Number(e, env, n) == Ok(Num.DecodeUnchecked(e))
  {
    hide Num.DecodeUnchecked, Num.IsMinimallyEncoded;
  }

  /** OP_PICK and OP_ROLL refuse a depth the stack does not have. */
  lemma PickRefused(op: byte, m: Machine, s: Stack, n: int, at: (nat, nat), env: Env)
    requires (op == OP_PICK || op == OP_ROLL) && m.stack == s + [Num.Encode(n)] && Small(n) && (n < 0 || n >= |s|)
    ensures Fails(op, m, at, env, InvalidStackOperation)
  {
    StackLeaves(op, m, at, env);
    hide PopNumber, Num.Encode, Fails, Leaves, Shuffle;
    PopNumberReadsBack(s, n, env);
  }

  // -------------------------------------------------------------- one turn of the loop

  /** The limits an instruction meets before it is looked at. */
  ghost predicate WithinCount(op: byte, m: Machine, env: Env) {
    Legacy(env.version) && op > OP_16 ==> m.ops < MAX_OPS_PER_SCRIPT
  }

  function AfterCount(op: byte, m: Machine, env: Env): Machine {
    m.(ops := m.ops + if Legacy(env.version) && op > OP_16 then 1 else 0)
  }

  /**
   * The turn as a whole: pushes over 520 bytes, the 202nd operation before tapscript and disabled opcodes are refused
   * even in branches not taken; such a branch skips everything but the conditionals; otherwise the instruction
   * executes, and more than 1000 elements over both stacks are refused.
   */
  lemma StepMeans(op: byte, data: Elem, m: Machine, at: (nat, nat), env: Env)
    ensures var r, counted := Step(op, data, m, at.0, at.1, env), AfterCount(op, m, env);
      && (|data| > 520 ==> r == Err(PushSize))
      && (|data| <= 520 && !WithinCount(op, m, env) ==> r == Err(OpCount))
      && (|data| <= 520 && WithinCount(op, m, env) && IsDisabled(op) ==> r == Err(DisabledOpcode))
      && (|data| <= 520 && WithinCount(op, m, env) && !IsDisabled(op) ==>
        && (!Executing(m) && !(OP_IF <= op <= OP_ENDIF) ==> r == Ok(counted))
        && (Executing(m) || OP_IF <= op <= OP_ENDIF ==> !Inactive(op, env) ==>
          var e := Execute(op, data, counted, at.0, at.1, env);
          r == if e.Ok? && |e.value.stack| + |e.value.alt| > 1000 then Err(StackSize) else e)
        && (Executing(m) && Inactive(op, env) ==>
          r == if env.flags.discourageUpgradableNops then Err(DiscourageUpgradableNops) else Ok(counted)))
  {
    hide Execute, Executing, IsDisabled, Inactive;
  }

  /** The time locks are what can be inactive, each by its own flag. */
  lemma InactiveMeans(op: byte, env: Env)
    ensures Inactive(OP_CHECKLOCKTIMEVERIFY, env) == !env.flags.checkLockTimeVerify
    ensures Inactive(OP_CHECKSEQUENCEVERIFY, env) == !env.flags.checkSequenceVerify
    ensures Inactive(op, env) ==> op == OP_CHECKLOCKTIMEVERIFY || op == OP_CHECKSEQUENCEVERIFY
  {
  }

  // ------------------------------------------------------------------- a whole script

  /** An instruction that is executed and stays within the limits. */
  ghost predicate Executes(op: byte, data: Elem, m: Machine, at: (nat, nat), env: Env) {
    && |data| <= 520 && WithinCount(op, m, env) && !IsDisabled(op) && Executing(m) && !Inactive(op, env)
  }

  lemma Turn(op: byte, data: Elem, m: Machine, at: (nat, nat), env: Env)
    requires Executes(op, data, m, at, env)
    ensures var e := Execute(op, data, AfterCount(op, m, env), at.0, at.1, env);
      e.Ok? ==> |e.value.stack| + |e.value.alt| <= 1000 ==> Step(op, data, m, at.0, at.1, env) == e
    ensures var e := Execute(op, data, AfterCount(op, m, env), at.0, at.1, env);
      e.Err? ==> Step(op, data, m, at.0, at.1, env) == e
  {
    hide Execute, Step, IsDisabled, Inactive, Executing;
    StepMeans(op, data, m, at, env);
  }

  lemma RunTurn(m: Machine, pos: nat, op: byte, data: Elem, n: nat, env: Env)
    requires pos <= |env.script| && Ops.First(env.script[pos..]) == Ops.Op(op, data, n) && pos + n <= |env.script|
    ensures var r := Step(op, data, m, pos, pos + n, env);
      Run(m, pos, env) == if r.Err? then Err(r.error) else Run(r.value, pos + n, env)
  {
    hide Step, Ops.First;
  }

  /** The script a 20-byte witness program stands for. */
  function KeyHashScript(program: seq<byte>): seq<byte> { [0x76, 0xa9, 0x14] + program + [0x88, 0xac] }

  lemma KeyHashParse(program: seq<byte>, script: seq<byte>)
    requires |program| == 20 && script == KeyHashScript(program)
    ensures |script| == 25
    ensures Ops.First(script[0..]) == Ops.Op(OP_DUP, [], 1) && Ops.First(script[1..]) == Ops.Op(OP_HASH160, [], 1)
    ensures Ops.First(script[2..]) == Ops.Op(20, program, 21)
    ensures Ops.First(script[23..]) == Ops.Op(OP_EQUALVERIFY, [], 1)
    ensures Ops.First(script[24..]) == Ops.Op(OP_CHECKSIG, [], 1) && Ops.First(script[25..]) == Ops.End
  {
    assert script[2..][1..21] == program;
  }

  /** A machine of a version-0 script, free to execute, with room to spare. */
  ghost predicate Free(m: Machine, env: Env) {
    env.version == WitnessV0 && Executing(m) && m.ops < 100 && |m.stack| + |m.alt| < 900
  }

  lemma DupTurn(m: Machine, s: Stack, a: Elem, pos: nat, env: Env)
    requires Free(m, env) && m.stack == s + [a]
    ensures Step(OP_DUP, [], m, pos, pos + 1, env) == Ok(m.(stack := s + [a, a], ops := m.ops + 1))
  {
    hide Execute, Step, StackOp, Shuffled;
    var counted := AfterCount(OP_DUP, m, env);
    StackLeaves(OP_DUP, counted, (pos, pos + 1), env);
    DupStack(s, a, env);
    Turn(OP_DUP, [], m, (pos, pos + 1), env);
  }

  lemma DupStack(s: Stack, a: Elem, env: Env)
    ensures StackOp(OP_DUP, s + [a], env) == Ok(s + [a, a])
  {
    OneEffects(s, a);
    hide Shuffled, PickOrRoll, EqualOp, UnaryOp, BinaryOp, WithinOp, Num.Encode, Num.DecodeUnchecked;
  }

  lemma HashTurn(m: Machine, s: Stack, a: Elem, pos: nat, env: Env)
    requires Free(m, env) && m.stack == s + [a]
    ensures Step(OP_HASH160, [], m, pos, pos + 1, env)
      == Ok(m.(stack := s + [env.checker.digest(OP_HASH160, a)], ops := m.ops + 1))
  {
    hide Execute, Step;
    TopAnswers(AfterCount(OP_HASH160, m, env), s, a, OP_HASH160, (pos, pos + 1), env);
    Turn(OP_HASH160, [], m, (pos, pos + 1), env);
  }

  lemma PushTurn(m: Machine, data: Elem, pos: nat, env: Env)
    requires Free(m, env) && |data| == 20
    ensures Step(20, data, m, pos, pos + 21, env) == Ok(m.(stack := m.stack + [data]))
  {
    hide Step;
    assert Execute(20, data, m, pos, pos + 21, env) == Ok(m.(stack := m.stack + [data]));
    hide Execute;
    Turn(20, data, m, (pos, pos + 21), env);
  }

  lemma EqualVerifyTurn(m: Machine, s: Stack, a: Elem, b: Elem, pos: nat, env: Env)
    requires Free(m, env) && m.stack == s + [a, b]
    ensures Step(OP_EQUALVERIFY, [], m, pos, pos + 1, env)
      == if a == b then Ok(m.(stack := s, ops := m.ops + 1)) else Err(EqualVerify)
  {
    hide Execute, Step;
    EqualAnswers(AfterCount(OP_EQUALVERIFY, m, env), s, a, b, (pos, pos + 1), env);
    Turn(OP_EQUALVERIFY, [], m, (pos, pos + 1), env);
  }

  /** The signature commits to the whole script when no separator has been executed. */
  lemma CheckSigTurn(m: Machine, s: Stack, sig: Elem, key: Elem, pos: nat, env: Env)
    requires Free(m, env) && m.stack == s + [sig, key] && m.codeSep == 0
    requires env.checker.sigEncoding(sig).None? && env.checker.keyEncoding(key, WitnessV0).None?
    ensures var good := sig != [] && env.checker.ecdsa(sig, key, env.script, WitnessV0);
      Step(OP_CHECKSIG, [], m, pos, pos + 1, env)
        == if !good && env.flags.nullFail && sig != [] then Err(SigNullFail)
           else Ok(m.(stack := s + [Word(good)], ops := m.ops + 1))
  {
    assert env.script[0..] == env.script;
    assert ScriptCode(sig, 0, env) == Ok(env.script);
    hide Execute, Step, ScriptCode;
    CheckSigAnswers(AfterCount(OP_CHECKSIG, m, env), s, sig, key, env.script, (pos, pos + 1), env);
    Turn(OP_CHECKSIG, [], m, (pos, pos + 1), env);
  }

  lemma RunEnd(m: Machine, pos: nat, env: Env)
    requires pos <= |env.script| && Ops.First(env.script[pos..]) == Ops.End && m.cond == []
    ensures Run(m, pos, env) == Ok(m)
  {
    hide Ops.First;
  }

  /** Up to the comparison of the hashes. */
  lemma KeyHashFirstHalf(program: seq<byte>, sig: Elem, key: Elem, env: Env, weight: int)
    requires env.version == WitnessV0 && |program| == 20 && env.script == KeyHashScript(program)
    ensures |env.script| == 25
    ensures var m, h := Start([sig, key], weight), env.checker.digest(OP_HASH160, key);
      Run(m, 0, env) == if h == program then Run(m.(ops := 3), 24, env) else Err(EqualVerify)
  {
    KeyHashParse(program, env.script);
    hide Run, Step, Ops.First, KeyHashScript;
    var m, h := Start([sig, key], weight), env.checker.digest(OP_HASH160, key);
    DupTurn(m, [sig], key, 0, env);
    RunTurn(m, 0, OP_DUP, [], 1, env);
    var m1 := m.(stack := [sig] + [key, key], ops := 1);
    assert [sig] + [key] == [sig, key];
    assert m1.stack == [sig, key] + [key];
    HashTurn(m1, [sig, key], key, 1, env);
    RunTurn(m1, 1, OP_HASH160, [], 1, env);
    var m2 := m.(stack := [sig, key] + [h], ops := 2);
    PushTurn(m2, program, 2, env);
    RunTurn(m2, 2, 20, program, 21, env);
    var m3 := m2.(stack := m2.stack + [program]);
    assert m3.stack == [sig, key] + [h, program];
    EqualVerifyTurn(m3, [sig, key], h, program, 23, env);
    RunTurn(m3, 23, OP_EQUALVERIFY, [], 1, env);
  }

  /**
   * The whole of a key-hash witness program: it succeeds exactly when the key hashes to the program and its signature,
   * which is not empty, satisfies the checker for the implied script.
   */
  lemma KeyHashDecides(program: seq<byte>, sig: Elem, key: Elem, env: Env, weight: int)
    requires env.version == WitnessV0 && |program| == 20 && env.script == KeyHashScript(program)
    requires |sig| <= 520 && |key| <= 520
    requires env.checker.sigEncoding(sig).None? && env.checker.keyEncoding(key, WitnessV0).None?
    ensures var good := sig != [] && env.checker.ecdsa(sig, key, env.script, WitnessV0);
      WitnessVerdict([sig, key], env, weight)
        == if env.checker.digest(OP_HASH160, key) != program then Err(EqualVerify)
           else if good then Ok(())
           else if env.flags.nullFail && sig != [] then Err(SigNullFail)
           else Err(EvalFalse)
  {
    KeyHashFirstHalf(program, sig, key, env, weight);
    KeyHashParse(program, env.script);
    TruthOfBools();
    hide Run, Step, Ops.First, KeyHashScript, Num.DecodeUnchecked, Ops.Parse, HasOpSuccess;
    var m := Start([sig, key], weight).(ops := 3);
    assert [] + [sig, key] == [sig, key];
    CheckSigTurn(m, [], sig, key, 24, env);
    RunTurn(m, 24, OP_CHECKSIG, [], 1, env);
    var good := sig != [] && env.checker.ecdsa(sig, key, env.script, WitnessV0);
    RunEnd(m.(stack := [] + [Word(good)], ops := 4), 25, env);
    assert Prelude([sig, key], env).None?;
  }

  /** The rules around a witness script: OP_SUCCESSx first, then the limits, then one true element at the end. */
  lemma WitnessRules(stack: Stack, env: Env, weight: int)
    ensures var chunks := Ops.Parse(env.script).chunks; var v := WitnessVerdict(stack, env, weight);
      var tapscript := env.version == Tapscript; var wins := tapscript && HasOpSuccess(chunks);
      var broken := tapscript && Ops.Parse(env.script).tail != []; var crowded := tapscript && |stack| > 1000;
      && (wins ==> v == if env.flags.discourageOpSuccess then Err(DiscourageOpSuccess) else Ok(()))
      && (!wins && broken ==> v == Err(BadOpcode))
      && (!wins && !broken && crowded ==> v == Err(StackSize))
      && (!wins && !broken && !crowded && (exists e :: e in stack && |e| > 520) ==> v == Err(PushSize))
    ensures WitnessVerdict(stack, env, weight).Ok? && Prelude(stack, env).None? ==>
      var r := Run(Start(stack, weight), 0, env);
      r.Ok? && |r.value.stack| == 1 && Num.DecodeUnchecked(r.value.stack[0]) != 0
  {
    hide Ops.Parse, HasOpSuccess, Run, Num.DecodeUnchecked;
  }
}
