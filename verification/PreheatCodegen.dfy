/**
 The generator of the code that preheats a cache: it merges the registers of a dump into loops and calls. The
 generated C++ is modelled by its statements, and what they do by the list of accesses that they make.
 */
module PreheatCodegen {
  import opened Common

  datatype Parsed<+T> = Ok(value: T) | InvalidLine(number: nat)

  datatype Section = UInt16 | UInt32

  function Width(section: Section): nat {
    if section == UInt16 then 2 else 4
  }

  // ----- the dump -----

  datatype Line = Blank | Header(section: Section) | Register(address: nat) | Invalid

  predicate IsSpace(c: char) {
    c == ' ' || '\t' <= c <= '\r'
  }

  function Strip(line: string): string {
    if line == [] then []
    else if IsSpace(line[0]) then Strip(line[1..])
    else if IsSpace(line[|line| - 1]) then Strip(line[..|line| - 1])
    else line
  }

  predicate IsHexDigit(c: char) {
    '0' <= c <= '9' || 'a' <= c <= 'f'
  }

  predicate IsHex(digits: string) {
    forall i :: 0 <= i < |digits| ==> IsHexDigit(digits[i])
  }

  function Digit(c: char): (d: nat)
    requires IsHexDigit(c)
    ensures d < 16
  {
    if c <= '9' then (c - '0') as nat else 10 + (c - 'a') as nat
  }

  function Number(digits: string): nat
    requires IsHex(digits)
  {
    if digits == [] then 0 else 16 * Number(digits[..|digits| - 1]) + Digit(digits[|digits| - 1])
  }

  function PowerOf16(n: nat): nat {
    if n == 0 then 1 else 16 * PowerOf16(n - 1)
  }

  lemma {:induction false} NumberFits(digits: string)
    requires IsHex(digits)
    ensures Number(digits) < PowerOf16(|digits|)
  {
    if digits != [] {
      NumberFits(digits[..|digits| - 1]);
    }
  }

  /** A register line holds an address with eight digits and a value with as many as the section wants. */
  predicate IsRegister(section: Section, line: string) {
    && |line| == 14 + 2 * Width(section)
    && line[..2] == "0x" && IsHex(line[2..10]) && line[10..14] == ": 0x" && IsHex(line[14..])
  }

  function Classify(line: string, section: Option<Section>): Line {
    var text := Strip(line);
    if text == [] then Blank
    else if text == "uint16 registers:" then Header(UInt16)
    else if text == "uint32 registers:" then Header(UInt32)
    else if section.Some? && IsRegister(section.value, text) then Register(Number(text[2..10]))
    else Invalid
  }

  lemma RegisterFits(line: string, section: Option<Section>)
    requires Classify(line, section).Register?
    ensures Classify(line, section).address < ADDRESS_SPACE
  {
    NumberFits(Strip(line)[2..10]);
    assert PowerOf16(4) == 0x1_0000 && PowerOf16(8) == 0x1_0000 * PowerOf16(4);
  }

  datatype Access = Access(section: Section, address: nat)

  function Before(first: seq<Access>, rest: Parsed<seq<Access>>): Parsed<seq<Access>> {
    match rest
    case Ok(accesses) => Ok(first + accesses)
    case InvalidLine(number) => InvalidLine(number)
  }

  /** What the dump asks for: its registers in order, or the first line that is not one. */
  function Meaning(lines: seq<string>, section: Option<Section>, number: nat): Parsed<seq<Access>> {
    if lines == [] then Ok([])
    else
      match Classify(lines[0], section)
      case Blank => Meaning(lines[1..], section, number + 1)
      case Header(s) => Meaning(lines[1..], Some(s), number + 1)
      case Register(address) =>
        Before([Access(section.value, address)], Meaning(lines[1..], section, number + 1))
      case Invalid => InvalidLine(number)
  }

  /** Whether three registers in a row, each right after the one before, reach the end of the address space. So far
      `count` registers were in a row, and `next` is the address after them. */
  predicate ReachesEnd(lines: seq<string>, section: Option<Section>, next: Option<nat>, count: nat) {
    if lines == [] then false
    else
      match Classify(lines[0], section)
      case Blank => ReachesEnd(lines[1..], section, next, count)
      case Header(s) => ReachesEnd(lines[1..], Some(s), None, 0)
      case Register(address) =>
        var n := if next == Some(address) then count + 1 else 1;
        || (n > 2 && address + Width(section.value) >= ADDRESS_SPACE)
        || ReachesEnd(lines[1..], section, Some(address + Width(section.value)), n)
      case Invalid => false
  }

  // ----- the generated statements -----

  datatype Statement = Loop(section: Section, from: nat, to: nat) | Call(section: Section, address: nat)

  /** The loop variable has 32 bits; the limit is a literal of any size. */
  function LoopAddress(from: nat, width: nat, i: nat): nat {
    (from + i * width) % ADDRESS_SPACE
  }

  ghost predicate LoopEnds(from: nat, to: nat, width: nat, n: nat) {
    && (forall i :: 0 <= i < n ==> LoopAddress(from, width, i) < to)
    && LoopAddress(from, width, n) >= to
  }

  function LoopAccesses(section: Section, from: nat, n: nat): seq<Access> {
    seq(n, i requires 0 <= i < n => Access(section, LoopAddress(from, Width(section), i)))
  }

  /** The accesses of a statement, or None if it never ends. */
  ghost function RunOne(s: Statement): Option<seq<Access>> {
    match s
    case Call(section, address) => Some([Access(section, address)])
    case Loop(section, from, to) =>
      if n: nat :| LoopEnds(from, to, Width(section), n) then Some(LoopAccesses(section, from, n)) else None
  }

  ghost function Run(code: seq<Statement>): Option<seq<Access>> {
    if code == [] then Some([])
    else
      var first := RunOne(code[0]);
      var rest := Run(code[1..]);
      if first.Some? && rest.Some? then Some(first.value + rest.value) else None
  }

  // ----- blocks -----

  /** Consecutive registers: where they start, and how many bytes they take. */
  datatype Block = Block(section: Section, start: nat, length: nat)

  ghost predicate ValidBlock(b: Block) {
    && b.start < ADDRESS_SPACE
    && exists n: nat :: n > 0 && b.length == n * Width(b.section)
                        && b.start + (n - 1) * Width(b.section) < ADDRESS_SPACE
  }

  function Registers(b: Block): nat {
    b.length / Width(b.section)
  }

  function BlockAccesses(b: Block): seq<Access> {
    seq(Registers(b), i requires 0 <= i < Registers(b) => Access(b.section, b.start + i * Width(b.section)))
  }

  function Calls(b: Block): seq<Statement> {
    seq(Registers(b), i requires 0 <= i < Registers(b) => Call(b.section, b.start + i * Width(b.section)))
  }

  /** More than two registers make a loop. */
  function BlockCode(b: Block): seq<Statement> {
    if b.length > 2 * Width(b.section) then [Loop(b.section, b.start, b.start + b.length)] else Calls(b)
  }

  /** Every loop has a limit that its variable can reach. */
  predicate LoopsEnd(code: seq<Statement>) {
    forall i :: 0 <= i < |code| ==> (code[i].Loop? ==> code[i].to < ADDRESS_SPACE)
  }

  lemma RegistersOf(b: Block, n: nat)
    requires b.length == n * Width(b.section)
    ensures Registers(b) == n
  {
  }

  lemma BelowLimit(from: nat, width: nat, i: nat, n: nat)
    requires i <= n && from + n * width < ADDRESS_SPACE
    ensures LoopAddress(from, width, i) == from + i * width <= from + n * width
  {
    assert i * width <= n * width;
  }

  lemma LoopEndsOnce(from: nat, to: nat, width: nat, m: nat, n: nat)
    requires LoopEnds(from, to, width, m) && LoopEnds(from, to, width, n)
    ensures m == n
  {
  }

  /** A loop with a limit that fits goes through the addresses of its block. */
  lemma LoopGoesThrough(b: Block, n: nat)
    requires n > 0 && b.length == n * Width(b.section) && b.start + b.length < ADDRESS_SPACE
    ensures RunOne(Loop(b.section, b.start, b.start + b.length)) == Some(BlockAccesses(b))
  {
    var w := Width(b.section);
    RegistersOf(b, n);
    forall i | 0 <= i <= n
      ensures LoopAddress(b.start, w, i) == b.start + i * w
      ensures i < n ==> LoopAddress(b.start, w, i) < b.start + b.length
    {
      BelowLimit(b.start, w, i, n);
      if i < n {
        assert n * w == i * w + (n - i) * w && (n - i) * w >= w;
      }
    }
    var to := b.start + b.length;
    assert LoopEnds(b.start, to, w, n);
    forall m: nat | LoopEnds(b.start, to, w, m)
      ensures m == n
    {
      LoopEndsOnce(b.start, to, w, m, n);
    }
    assert LoopAccesses(b.section, b.start, n) == BlockAccesses(b);
  }

  /** A loop with a larger limit never ends: its variable wraps. */
  lemma LoopNeverEnds(section: Section, from: nat, to: nat)
    requires to >= ADDRESS_SPACE
    ensures RunOne(Loop(section, from, to)) == None
  {
    forall n: nat
      ensures !LoopEnds(from, to, Width(section), n)
    {
      assert LoopAddress(from, Width(section), n) < to;
    }
  }

  lemma {:induction false} RunConcat(code: seq<Statement>, more: seq<Statement>)
    ensures Run(code + more)
            == if Run(code).Some? && Run(more).Some? then Some(Run(code).value + Run(more).value) else None
  {
    if code == [] {
      assert code + more == more;
      if Run(more).Some? {
        assert [] + Run(more).value == Run(more).value;
      }
    } else {
      assert (code + more)[1..] == code[1..] + more;
      RunConcat(code[1..], more);
      if RunOne(code[0]).Some? && Run(code[1..]).Some? && Run(more).Some? {
        var a, b, c := RunOne(code[0]).value, Run(code[1..]).value, Run(more).value;
        assert a + (b + c) == (a + b) + c;
      }
    }
  }

  lemma RunSingle(s: Statement)
    ensures Run([s]) == RunOne(s)
  {
    assert [s][1..] == [];
    if RunOne(s).Some? {
      assert RunOne(s).value + [] == RunOne(s).value;
    }
  }

  lemma {:induction false} RunCalls(section: Section, start: nat, n: nat)
    ensures
      var w := Width(section);
      Run(seq(n, i requires 0 <= i < n => Call(section, start + i * w)))
      == Some(seq(n, i requires 0 <= i < n => Access(section, start + i * w)))
  {
    var w := Width(section);
    var code := seq(n, i requires 0 <= i < n => Call(section, start + i * w));
    if n > 0 {
      var fewer := seq(n - 1, i requires 0 <= i < n - 1 => Call(section, start + i * w));
      assert code == fewer + [Call(section, start + (n - 1) * w)];
      RunCalls(section, start, n - 1);
      RunSingle(Call(section, start + (n - 1) * w));
      RunConcat(fewer, [Call(section, start + (n - 1) * w)]);
      assert seq(n, i requires 0 <= i < n => Access(section, start + i * w))
          == seq(n - 1, i requires 0 <= i < n - 1 => Access(section, start + i * w))
             + [Access(section, start + (n - 1) * w)];
    }
  }

  /** The code of a block makes the accesses of the block, unless it is a loop that cannot end. */
  lemma BlockCodeRuns(b: Block)
    requires ValidBlock(b)
    ensures Run(BlockCode(b)) == if LoopsEnd(BlockCode(b)) then Some(BlockAccesses(b)) else None
  {
    var n: nat :| n > 0 && b.length == n * Width(b.section)
                  && b.start + (n - 1) * Width(b.section) < ADDRESS_SPACE;
    RegistersOf(b, n);
    if b.length > 2 * Width(b.section) {
      var loop := Loop(b.section, b.start, b.start + b.length);
      assert BlockCode(b)[0] == loop;
      RunSingle(loop);
      if b.start + b.length < ADDRESS_SPACE {
        LoopGoesThrough(b, n);
      } else {
        LoopNeverEnds(b.section, b.start, b.start + b.length);
      }
    } else {
      RunCalls(b.section, b.start, n);
      assert Calls(b) == seq(n, i requires 0 <= i < n => Call(b.section, b.start + i * Width(b.section)));
      assert BlockAccesses(b) == seq(n, i requires 0 <= i < n => Access(b.section, b.start + i * Width(b.section)));
    }
  }

  // ----- the generator -----

  /** The statements make exactly these accesses, if all loops end; otherwise running them never ends. */
  ghost predicate Does(code: seq<Statement>, accesses: seq<Access>) {
    Run(code) == if LoopsEnd(code) then Some(accesses) else None
  }

  lemma CodeGrows(code: seq<Statement>, accesses: seq<Access>, b: Block)
    requires Does(code, accesses) && ValidBlock(b)
    ensures Does(code + BlockCode(b), accesses + BlockAccesses(b))
  {
    BlockCodeRuns(b);
    RunConcat(code, BlockCode(b));
    LoopsConcat(code, BlockCode(b));
  }

  /** A block of one register. */
  lemma NewBlock(section: Section, address: nat)
    requires address < ADDRESS_SPACE
    ensures
      var b := Block(section, address, Width(section));
      ValidBlock(b) && BlockAccesses(b) == [Access(section, address)]
  {
    var b := Block(section, address, Width(section));
    assert b.length == 1 * Width(section) && b.start + (1 - 1) * Width(section) < ADDRESS_SPACE;
    RegistersOf(b, 1);
  }

  /** The next register extends the block. */
  lemma BlockGrows(b: Block, address: nat)
    requires ValidBlock(b) && address == b.start + b.length && address < ADDRESS_SPACE
    ensures
      var b' := b.(length := b.length + Width(b.section));
      ValidBlock(b') && BlockAccesses(b') == BlockAccesses(b) + [Access(b.section, address)]
  {
    var n: nat :| n > 0 && b.length == n * Width(b.section)
                  && b.start + (n - 1) * Width(b.section) < ADDRESS_SPACE;
    var b' := b.(length := b.length + Width(b.section));
    assert b'.length == (n + 1) * Width(b.section);
    RegistersOf(b, n);
    RegistersOf(b', n + 1);
  }

  /** The accesses of the block that is still open. */
  function OpenAccesses(section: Option<Section>, start: Option<nat>, length: nat): seq<Access> {
    if section.Some? && start.Some? then BlockAccesses(Block(section.value, start.value, length)) else []
  }

  /** The open block would become a loop that cannot end. */
  predicate OpenReachesEnd(section: Option<Section>, start: Option<nat>, length: nat) {
    section.Some? && start.Some? && length > 2 * Width(section.value) && start.value + length >= ADDRESS_SPACE
  }

  function NextOpen(start: Option<nat>, length: nat): Option<nat> {
    if start.Some? then Some(start.value + length) else None
  }

  function CountOpen(section: Option<Section>, start: Option<nat>, length: nat): nat {
    if section.Some? && start.Some? then length / Width(section.value) else 0
  }

  ghost predicate ValidOpen(section: Option<Section>, start: Option<nat>, length: nat) {
    start.Some? ==> section.Some? && ValidBlock(Block(section.value, start.value, length))
  }

  method GenerateCode(b: Block) returns (code: seq<Statement>)
    ensures code == BlockCode(b)
  {
    if b.length > 2 * Width(b.section) {
      code := [Loop(b.section, b.start, b.start + b.length)];
    } else {
      code := [];
      for i := 0 to Registers(b)
        invariant code == Calls(b)[..i]
      {
        code := code + [Call(b.section, b.start + i * Width(b.section))];
      }
    }
  }

  lemma LoopsOfBlock(code: seq<Statement>, b: Block)
    ensures LoopsEnd(code + BlockCode(b)) <==>
              LoopsEnd(code) && !(b.length > 2 * Width(b.section) && b.start + b.length >= ADDRESS_SPACE)
  {
    LoopsConcat(code, BlockCode(b));
    if b.length > 2 * Width(b.section) {
      assert BlockCode(b)[0] == Loop(b.section, b.start, b.start + b.length);
    }
  }

  lemma LoopsConcat(code: seq<Statement>, more: seq<Statement>)
    ensures LoopsEnd(code + more) <==> LoopsEnd(code) && LoopsEnd(more)
  {
    var all := code + more;
    assert forall i :: 0 <= i < |code| ==> all[i] == code[i];
    assert forall i :: 0 <= i < |more| ==> all[|code| + i] == more[i];
  }

  /** Closes the open block, if there is one. */
  method Flush(code: seq<Statement>, section: Option<Section>, start: Option<nat>, length: nat, ghost done: seq<Access>)
    returns (code': seq<Statement>)
    requires ValidOpen(section, start, length) && Does(code, done)
    ensures Does(code', done + OpenAccesses(section, start, length))
    ensures LoopsEnd(code') <==> LoopsEnd(code) && !OpenReachesEnd(section, start, length)
  {
    code' := code;
    if start.Some? {
      var block := GenerateCode(Block(section.value, start.value, length));
      CodeGrows(code, done, Block(section.value, start.value, length));
      LoopsOfBlock(code, Block(section.value, start.value, length));
      code' := code + block;
    } else {
      assert done + [] == done;
    }
  }

  lemma BeforeNothing(rest: Parsed<seq<Access>>)
    ensures Before([], rest) == rest
  {
    if rest.Ok? {
      assert [] + rest.value == rest.value;
    }
  }

  lemma BeforeTwice(first: seq<Access>, second: seq<Access>, rest: Parsed<seq<Access>>)
    ensures Before(first, Before(second, rest)) == Before(first + second, rest)
  {
    if rest.Ok? {
      assert first + (second + rest.value) == (first + second) + rest.value;
    }
  }

  /** The length of a block counts its registers. */
  lemma LengthCounts(section: Section, start: nat, length: nat)
    requires ValidBlock(Block(section, start, length))
    ensures (length + Width(section)) / Width(section) == length / Width(section) + 1
    ensures length > 2 * Width(section) <==> length / Width(section) > 2
    ensures length >= Width(section)
  {
    var n: nat :| n > 0 && length == n * Width(section) && start + (n - 1) * Width(section) < ADDRESS_SPACE;
    RegistersOf(Block(section, start, length), n);
  }

  /** A register extends the open block, or closes it and opens one of its own. */
  method AddRegister(code: seq<Statement>, section: Section, start: Option<nat>, length: nat, address: nat,
                     ghost done: seq<Access>)
    returns (code': seq<Statement>, start': Option<nat>, length': nat, ghost done': seq<Access>)
    requires ValidOpen(Some(section), start, length) && Does(code, done) && address < ADDRESS_SPACE
    ensures ValidOpen(Some(section), start', length') && Does(code', done')
    ensures done' + OpenAccesses(Some(section), start', length')
            == done + OpenAccesses(Some(section), start, length) + [Access(section, address)]
    ensures NextOpen(start', length') == Some(address + Width(section))
    ensures CountOpen(Some(section), start', length')
            == if NextOpen(start, length) == Some(address) then CountOpen(Some(section), start, length) + 1 else 1
    ensures (!LoopsEnd(code') || OpenReachesEnd(Some(section), start', length')) <==>
              || !LoopsEnd(code) || OpenReachesEnd(Some(section), start, length)
              || (CountOpen(Some(section), start', length') > 2 && address + Width(section) >= ADDRESS_SPACE)
  {
    code', start', length', done' := code, start, length, done;
    if start.Some? && address == start.value + length {
      BlockGrows(Block(section, start.value, length), address);
      LengthCounts(section, start.value, length);
      length' := length + Width(section);
      LengthCounts(section, start.value, length');
    } else {
      code' := Flush(code, Some(section), start, length, done);
      done' := done + OpenAccesses(Some(section), start, length);
      NewBlock(section, address);
      start', length' := Some(address), Width(section);
    }
  }

  /** What is known after the first k lines. */
  ghost predicate SoFar(lines: seq<string>, k: nat, section: Option<Section>, start: Option<nat>, length: nat,
                        code: seq<Statement>, done: seq<Access>)
    requires k <= |lines|
  {
    && ValidOpen(section, start, length) && Does(code, done)
    && Meaning(lines, None, 1)
       == Before(done + OpenAccesses(section, start, length), Meaning(lines[k..], section, k + 1))
    && (ReachesEnd(lines, None, None, 0) <==>
          || !LoopsEnd(code) || OpenReachesEnd(section, start, length)
          || ReachesEnd(lines[k..], section, NextOpen(start, length), CountOpen(section, start, length)))
  }

  lemma HeaderStep(lines: seq<string>, k: nat, section: Option<Section>, next: Option<nat>, count: nat, s: Section)
    requires k < |lines| && Classify(lines[k], section) == Header(s)
    ensures Meaning(lines[k..], section, k + 1) == Meaning(lines[k + 1..], Some(s), k + 2)
    ensures ReachesEnd(lines[k..], section, next, count) == ReachesEnd(lines[k + 1..], Some(s), None, 0)
  {
    assert lines[k..][1..] == lines[k + 1..];
  }

  lemma RegisterStep(lines: seq<string>, k: nat, section: Section, next: Option<nat>, count: nat, address: nat)
    requires k < |lines| && Classify(lines[k], Some(section)) == Register(address)
    ensures Meaning(lines[k..], Some(section), k + 1)
            == Before([Access(section, address)], Meaning(lines[k + 1..], Some(section), k + 2))
    ensures
      var n := if next == Some(address) then count + 1 else 1;
      ReachesEnd(lines[k..], Some(section), next, count) <==>
        || (n > 2 && address + Width(section) >= ADDRESS_SPACE)
        || ReachesEnd(lines[k + 1..], Some(section), Some(address + Width(section)), n)
  {
    assert lines[k..][1..] == lines[k + 1..];
  }

  method ProcessHeader(lines: seq<string>, k: nat, section: Option<Section>, start: Option<nat>, length: nat,
                       code: seq<Statement>, s: Section, ghost done: seq<Access>)
    returns (code': seq<Statement>, ghost done': seq<Access>)
    requires k < |lines| && SoFar(lines, k, section, start, length, code, done)
    requires Classify(lines[k], section) == Header(s)
    ensures SoFar(lines, k + 1, Some(s), None, length, code', done')
  {
    HeaderStep(lines, k, section, NextOpen(start, length), CountOpen(section, start, length), s);
    code' := Flush(code, section, start, length, done);
    done' := done + OpenAccesses(section, start, length);
    assert done' + [] == done';
  }

  method ProcessRegister(lines: seq<string>, k: nat, section: Section, start: Option<nat>, length: nat,
                         code: seq<Statement>, address: nat, ghost done: seq<Access>)
    returns (start': Option<nat>, length': nat, code': seq<Statement>, ghost done': seq<Access>)
    requires k < |lines| && SoFar(lines, k, Some(section), start, length, code, done)
    requires Classify(lines[k], Some(section)) == Register(address)
    ensures SoFar(lines, k + 1, Some(section), start', length', code', done')
  {
    RegisterStep(lines, k, section, NextOpen(start, length), CountOpen(Some(section), start, length), address);
    RegisterFits(lines[k], Some(section));
    BeforeTwice(done + OpenAccesses(Some(section), start, length), [Access(section, address)],
                Meaning(lines[k + 1..], Some(section), k + 2));
    code', start', length', done' := AddRegister(code, section, start, length, address, done);
  }

  /** One line that is a register or a header or blank. */
  method ProcessLine(lines: seq<string>, k: nat, section: Option<Section>, start: Option<nat>, length: nat,
                     code: seq<Statement>, ghost done: seq<Access>)
    returns (section': Option<Section>, start': Option<nat>, length': nat, code': seq<Statement>,
             ghost done': seq<Access>)
    requires k < |lines| && SoFar(lines, k, section, start, length, code, done)
    requires Classify(lines[k], section) != Invalid
    ensures SoFar(lines, k + 1, section', start', length', code', done')
  {
    section', start', length', code', done' := section, start, length, code, done;
    match Classify(lines[k], section)
    case Blank =>
      assert lines[k..][1..] == lines[k + 1..];
    case Header(s) =>
      code', done' := ProcessHeader(lines, k, section, start, length, code, s, done);
      section', start' := Some(s), None;
    case Register(address) =>
      start', length', code', done' := ProcessRegister(lines, k, section.value, start, length, code, address, done);
  }

  /** The whole dump: the generated statements make the accesses that the dump asks for, in its order and with the
      right width, exactly if no three registers in a row reach the end of the address space. Otherwise a loop has a
      limit beyond the range of its variable, and the statements never end. */
  method Generate(lines: seq<string>) returns (result: Parsed<seq<Statement>>)
    ensures result.InvalidLine? <==> Meaning(lines, None, 1).InvalidLine?
    ensures result.InvalidLine? ==> result.number == Meaning(lines, None, 1).number
    ensures result.Ok? ==>
              Run(result.value)
              == if ReachesEnd(lines, None, None, 0) then None else Some(Meaning(lines, None, 1).value)
  {
    var code: seq<Statement>, section: Option<Section>, start: Option<nat>, length: nat := [], None, None, 0;
    ghost var done: seq<Access> := [];
    BeforeNothing(Meaning(lines, None, 1));
    assert lines[0..] == lines && done + OpenAccesses(section, start, length) == [];
    var k := 0;
    while k < |lines|
      invariant 0 <= k <= |lines| && SoFar(lines, k, section, start, length, code, done)
    {
      if Classify(lines[k], section) == Invalid {
        return InvalidLine(k + 1);
      }
      section, start, length, code, done := ProcessLine(lines, k, section, start, length, code, done);
      k := k + 1;
    }
    code := Flush(code, section, start, length, done);
    ghost var all := done + OpenAccesses(section, start, length);
    assert all + [] == all;
    return Ok(code);
  }

  // ----- a dump whose code never ends -----

  const LAST_REGISTERS: seq<string> := [
    "uint32 registers:",
    "0xfffffff4: 0x00000000",
    "0xfffffff8: 0x00000000",
    "0xfffffffc: 0x00000000"]

  lemma {:induction false} NumberOfFs(digits: string)
    requires forall i :: 0 <= i < |digits| ==> digits[i] == 'f'
    ensures IsHex(digits) && Number(digits) == PowerOf16(|digits|) - 1
  {
    if digits != [] {
      NumberOfFs(digits[..|digits| - 1]);
      assert Digit('f') == 15;
    }
  }

  lemma HexNumber(digits: string, last: char)
    requires |digits| == 8 && digits[7] == last && IsHexDigit(last)
    requires forall i :: 0 <= i < 7 ==> digits[i] == 'f'
    ensures IsHex(digits) && Number(digits) == 0xffff_fff0 + Digit(last)
  {
    NumberOfFs(digits[..7]);
    assert PowerOf16(4) == 0x1_0000 && PowerOf16(7) == 0x1000 * PowerOf16(4);
  }

  lemma LastRegister(line: string, last: char)
    requires |line| == 22 && line[..9] == "0xfffffff" && line[9] == last && IsHexDigit(last)
    requires line[10..] == ": 0x00000000"
    ensures Classify(line, Some(UInt32)) == Register(0xffff_fff0 + Digit(last))
  {
    assert line[0] == line[..9][0] == '0' && line[21] == line[10..][11] == '0';
    assert line[..2] == line[..9][..2] == "0x";
    forall i | 0 <= i < 7
      ensures line[2..10][i] == 'f'
    {
      assert line[2..10][i] == line[..9][2 + i];
    }
    assert line[10..14] == line[10..][..4] == ": 0x" && line[14..] == line[10..][4..] == "00000000";
    HexNumber(line[2..10], last);
  }

  lemma RegisterFirst(line: string, rest: seq<string>, next: Option<nat>, count: nat, number: nat, address: nat)
    requires Classify(line, Some(UInt32)) == Register(address)
    ensures Meaning([line] + rest, Some(UInt32), number)
            == Before([Access(UInt32, address)], Meaning(rest, Some(UInt32), number + 1))
    ensures
      var n := if next == Some(address) then count + 1 else 1;
      ReachesEnd([line] + rest, Some(UInt32), next, count) <==>
        (n > 2 && address + 4 >= ADDRESS_SPACE) || ReachesEnd(rest, Some(UInt32), Some(address + 4), n)
  {
    assert ([line] + rest)[1..] == rest;
  }

  lemma HeaderFirst(line: string, rest: seq<string>)
    requires Classify(line, None) == Header(UInt32)
    ensures Meaning([line] + rest, None, 1) == Meaning(rest, Some(UInt32), 2)
    ensures ReachesEnd([line] + rest, None, None, 0) == ReachesEnd(rest, Some(UInt32), None, 0)
  {
    assert ([line] + rest)[1..] == rest;
  }

  lemma LastLinesAre()
    ensures Classify(LAST_REGISTERS[0], None) == Header(UInt32)
    ensures Classify(LAST_REGISTERS[1], Some(UInt32)) == Register(0xffff_fff4)
    ensures Classify(LAST_REGISTERS[2], Some(UInt32)) == Register(0xffff_fff8)
    ensures Classify(LAST_REGISTERS[3], Some(UInt32)) == Register(0xffff_fffc)
  {
    LastRegister(LAST_REGISTERS[1], '4');
    LastRegister(LAST_REGISTERS[2], '8');
    LastRegister(LAST_REGISTERS[3], 'c');
  }

  lemma LastThreeReachEnd(a: string, b: string, c: string)
    requires Classify(a, Some(UInt32)) == Register(0xffff_fff4) && Classify(b, Some(UInt32)) == Register(0xffff_fff8)
    requires Classify(c, Some(UInt32)) == Register(0xffff_fffc)
    ensures ReachesEnd([a] + ([b] + ([c] + [])), Some(UInt32), None, 0)
    ensures Meaning([a] + ([b] + ([c] + [])), Some(UInt32), 2)
            == Ok([Access(UInt32, 0xffff_fff4), Access(UInt32, 0xffff_fff8), Access(UInt32, 0xffff_fffc)])
  {
    RegisterFirst(a, [b] + ([c] + []), None, 0, 2, 0xffff_fff4);
    RegisterFirst(b, [c] + [], Some(0xffff_fff8), 1, 3, 0xffff_fff8);
    RegisterFirst(c, [], Some(0xffff_fffc), 2, 4, 0xffff_fffc);
    assert Meaning([], Some(UInt32), 5) == Ok([]);
    var x, y, z := Access(UInt32, 0xffff_fff4), Access(UInt32, 0xffff_fff8), Access(UInt32, 0xffff_fffc);
    assert [z] + [] == [z] && [y] + [z] == [y, z] && [x] + [y, z] == [x, y, z];
  }

  /** The three last 32-bit registers: the dump is valid, and the generated code never ends. */
  lemma LastRegistersNeverEnd()
    ensures ReachesEnd(LAST_REGISTERS, None, None, 0)
    ensures Meaning(LAST_REGISTERS, None, 1)
            == Ok([Access(UInt32, 0xffff_fff4), Access(UInt32, 0xffff_fff8), Access(UInt32, 0xffff_fffc)])
  {
    var header, a, b, c := LAST_REGISTERS[0], LAST_REGISTERS[1], LAST_REGISTERS[2], LAST_REGISTERS[3];
    LastLinesAre();
    LastThreeReachEnd(a, b, c);
    HeaderFirst(header, [a] + ([b] + ([c] + [])));
    assert LAST_REGISTERS == [header] + ([a] + ([b] + ([c] + [])));
  }
}
