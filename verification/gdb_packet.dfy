// Packet framing of the GDB remote serial protocol (gdbstub.c:592-610, 669-739, 2999-3144).
module GdbPacket {

  const MAX_PACKET_LENGTH := 4096

  type Byte = x: nat | x < 256

  const DOLLAR: Byte := 36
  const HASH: Byte := 35
  const STAR: Byte := 42
  const BRACE: Byte := 125
  const PLUS: Byte := 43
  const MINUS: Byte := 45

  import opened Wrappers

  // ----- hex digits and the escape bit ----------------------------------------------------

  predicate IsHex(ch: Byte) {
    48 <= ch <= 57 || 65 <= ch <= 70 || 97 <= ch <= 102
  }

  function FromHex(ch: Byte): (v: nat)
    ensures v < 16
  {
    if 48 <= ch <= 57 then ch - 48
    else if 65 <= ch <= 70 then ch - 55
    else if 97 <= ch <= 102 then ch - 87
    else 0
  }

  function ToHex(v: nat): (ch: Byte)
    requires v < 16
    ensures IsHex(ch) && FromHex(ch) == v
  {
    if v < 10 then v + 48 else v - 10 + 97
  }

  /** The digits, in lower case when written and in either case when read; nothing else is a digit. */
  lemma HexDigits(v: nat)
    requires v < 16
    ensures ToHex(v) == "0123456789abcdef"[v] as int
    ensures FromHex("0123456789abcdef"[v] as int) == v && FromHex("0123456789ABCDEF"[v] as int) == v
    ensures forall ch: Byte :: !IsHex(ch) ==> FromHex(ch) == 0
    ensures forall ch: Byte :: IsHex(ch) <==> exists k :: 0 <= k < 22 && "0123456789abcdefABCDEF"[k] as int == ch
  {
    forall ch: Byte | IsHex(ch) ensures exists k :: 0 <= k < 22 && "0123456789abcdefABCDEF"[k] as int == ch {
      var k := if ch <= 57 then ch - 48 else if ch <= 70 then ch - 65 + 16 else ch - 97 + 10;
      assert "0123456789abcdefABCDEF"[k] as int == ch;
    }
  }

  /** The bytes that frame a packet and answer one. */
  lemma ProtocolBytes()
    ensures [DOLLAR, HASH, STAR, BRACE, PLUS, MINUS] == ['$' as int, '#' as int, '*' as int, '}' as int, '+' as int, '-' as int]
  {
  }

  /** ch ^ 0x20 */
  function Flip(ch: Byte): (r: Byte)
    ensures r != ch && (r == ch + 32 || r == ch - 32)
  {
    if ch / 32 % 2 == 0 then ch + 32 else ch - 32
  }

  lemma FlipTwice(ch: Byte)
    ensures Flip(Flip(ch)) == ch
  {
    var q, r := ch / 32, ch % 32;
    if q % 2 == 0 {
      assert (ch + 32) / 32 == q + 1 && (q + 1) % 2 == 1;
    } else {
      assert (ch - 32) / 32 == q - 1 && (q - 1) % 2 == 0;
    }
  }

  function Sum(bytes: seq<Byte>): nat {
    if bytes == [] then 0 else bytes[0] + Sum(bytes[1..])
  }

  lemma {:induction false} SumConcat(a: seq<Byte>, b: seq<Byte>)
    ensures Sum(a + b) == Sum(a) + Sum(b)
  {
    if a == [] {
      assert a + b == b;
    } else {
      assert (a + b)[1..] == a[1..] + b;
      SumConcat(a[1..], b);
    }
  }

  // ----- the receiver as a function -------------------------------------------------------

  datatype Phase = Idle | GetLine | Escape | Repeat | Checksum1 | Checksum2

  datatype Parser = Parser(phase: Phase, line: seq<Byte>, sum: nat, csum: nat)

  function Times(n: nat, ch: Byte): seq<Byte> {
    seq(n, _ => ch)
  }

  /** Full: one slot of the buffer is kept for the terminator. */
  predicate Overruns(line: seq<Byte>, more: nat) {
    |line| + more >= MAX_PACKET_LENGTH - 1
  }

  predicate ValidCount(ch: Byte) {
    32 <= ch <= 126 && ch != HASH && ch != DOLLAR
  }

  /** The parser after one byte; what a completed packet triggers is in `Read`. */
  function Advance(p: Parser, ch: Byte): Parser {
    match p.phase
    case Idle =>
      if ch == DOLLAR then Parser(GetLine, [], 0, p.csum) else p
    case GetLine =>
      if ch == BRACE then p.(phase := Escape, sum := p.sum + ch)
      else if ch == STAR then p.(phase := Repeat, sum := p.sum + ch)
      else if ch == HASH then p.(phase := Checksum1)
      else if Overruns(p.line, 0) then p.(phase := Idle)
      else p.(line := p.line + [ch], sum := p.sum + ch)
    case Escape =>
      if ch == HASH then p.(phase := Checksum1)
      else if Overruns(p.line, 0) then p.(phase := Idle)
      else p.(phase := GetLine, line := p.line + [Flip(ch)], sum := p.sum + ch)
    case Repeat =>
      if !ValidCount(ch) then p.(phase := GetLine)
      else if Overruns(p.line, ch - 32 + 3) then p.(phase := Idle)
      else if p.line == [] then p.(phase := GetLine)
      else p.(phase := GetLine, line := p.line + Times(ch - 32 + 3, p.line[|p.line| - 1]), sum := p.sum + ch)
    case Checksum1 =>
      if IsHex(ch) then p.(phase := Checksum2, csum := FromHex(ch) * 16) else p.(phase := GetLine)
    case Checksum2 =>
      if IsHex(ch) then p.(phase := Idle, csum := p.csum + FromHex(ch)) else p.(phase := GetLine)
  }

  /** The stub between two bytes: `last` is the reply that waits for an acknowledgement. */
  datatype Session = Session(parser: Parser, last: seq<Byte>, running: bool)

  /** What handling a command leaves behind: the reply sent and whether the machine now runs. */
  datatype Reaction = Reaction(last: seq<Byte>, running: bool)

  type Handler = seq<Byte> -> Reaction

  /** The new session, the bytes sent by the framing layer itself, and the commands handed on. */
  datatype Output = Output(session: Session, sent: seq<Byte>, cmds: seq<seq<Byte>>)

  function Read(s: Session, ch: Byte, h: Handler): Output {
    if s.last != [] && ch != DOLLAR then
      Output(s.(last := if ch == PLUS then [] else s.last), if ch == MINUS then s.last else [], [])
    else if s.running then
      Output(s.(last := [], running := false), [], [])
    else
      var p := Advance(s.parser, ch);
      if s.parser.phase == Checksum2 && p.phase == Idle then
        if p.csum == p.sum % 256 then
          Output(Session(p, h(p.line).last, h(p.line).running), [PLUS], [p.line])
        else
          Output(Session(p, [], false), [MINUS], [])
      else
        Output(Session(p, [], false), [], [])
  }

  function Then(o: Output, o': Output): Output {
    Output(o'.session, o.sent + o'.sent, o.cmds + o'.cmds)
  }

  function Reads(s: Session, bytes: seq<Byte>, h: Handler): Output
    decreases |bytes|
  {
    if bytes == [] then Output(s, [], []) else
      var o := Read(s, bytes[0], h);
      Then(o, Reads(o.session, bytes[1..], h))
  }

  lemma ThenAssoc(a: Output, b: Output, c: Output)
    ensures Then(a, Then(b, c)) == Then(Then(a, b), c)
  {
    assert a.sent + (b.sent + c.sent) == a.sent + b.sent + c.sent;
    assert a.cmds + (b.cmds + c.cmds) == a.cmds + b.cmds + c.cmds;
  }

  lemma {:induction false} ReadsConcat(s: Session, a: seq<Byte>, b: seq<Byte>, h: Handler)
    ensures var o := Reads(s, a, h);
      Reads(s, a + b, h) == Then(o, Reads(o.session, b, h))
    decreases |a|
  {
    if a == [] {
      assert a + b == b;
    } else {
      assert (a + b)[1..] == a[1..] + b && (a + b)[0] == a[0];
      var o := Read(s, a[0], h);
      var o1 := Reads(o.session, a[1..], h);
      ReadsConcat(o.session, a[1..], b, h);
      ThenAssoc(o, o1, Reads(o1.session, b, h));
    }
  }

  lemma ReadsOne(s: Session, x: Byte, h: Handler)
    ensures Reads(s, [x], h) == Read(s, x, h)
  {
    assert [x][1..] == [];
  }

  lemma ReadsTwo(s: Session, x: Byte, y: Byte, h: Handler)
    ensures var o := Read(s, x, h); Reads(s, [x, y], h) == Then(o, Read(o.session, y, h))
    ensures Sum([x, y]) == x + y
  {
    assert [x, y][1..] == [y] && [y][1..] == [];
    ReadsOne(Read(s, x, h).session, y, h);
    assert Sum([y]) == y + Sum([y][1..]);
  }

  // ----- acknowledgements -----------------------------------------------------------------

  function Copies(n: nat, packet: seq<Byte>): seq<Byte> {
    if n == 0 then [] else packet + Copies(n - 1, packet)
  }

  function Nacks(bytes: seq<Byte>): nat {
    if bytes == [] then 0 else (if bytes[0] == '-' as int then 1 else 0) + Nacks(bytes[1..])
  }

  /**
   * While a reply is outstanding, every '-' sends it once more and everything else but '+' and '$'
   * is ignored: nothing reaches the parser, the machine or the command handler.
   */
  lemma {:induction false} AwaitingAck(s: Session, bytes: seq<Byte>, h: Handler)
    requires s.last != [] && '+' as int !in bytes && '$' as int !in bytes
    ensures Reads(s, bytes, h) == Output(s, Copies(Nacks(bytes), s.last), [])
    decreases |bytes|
  {
    if bytes != [] {
      AwaitingAck(s, bytes[1..], h);
      assert bytes[0] in bytes;
      assert Read(s, bytes[0], h) == Output(s, if bytes[0] == '-' as int then s.last else [], []);
    }
  }

  /** The first '+' lets go of the reply and does nothing else. */
  lemma Acknowledged(s: Session, bytes: seq<Byte>, h: Handler)
    requires s.last != [] && '+' as int !in bytes && '$' as int !in bytes
    ensures Reads(s, bytes + ['+' as int], h) == Output(s.(last := []), Copies(Nacks(bytes), s.last), [])
  {
    AwaitingAck(s, bytes, h);
    ReadsConcat(s, bytes, ['+' as int], h);
    ReadsOne(s, '+' as int, h);
    assert Copies(Nacks(bytes), s.last) + [] == Copies(Nacks(bytes), s.last);
  }

  /** A '$' gives the reply up and counts as the first byte of a packet. */
  lemma Abandoned(s: Session, h: Handler)
    requires s.last != []
    ensures Read(s, '$' as int, h) == Read(s.(last := []), '$' as int, h)
  {
  }

  /** With the machine running and no reply outstanding, a byte stops the machine and goes no further. */
  lemma StopsMachine(s: Session, ch: Byte, h: Handler)
    requires s.running && s.last == []
    ensures Read(s, ch, h) == Output(s.(running := false), [], [])
  {
  }

  // ----- bytes that do not belong ----------------------------------------------------------

  /** Outside a packet only '$' matters; it starts an empty packet. */
  lemma StartOfPacket(p: Parser, ch: Byte)
    requires p.phase == Idle
    ensures if ch == '$' as int then Advance(p, ch) == Parser(GetLine, [], 0, p.csum) else Advance(p, ch) == p
  {
  }

  /** A full buffer drops the packet; so does a run that would fill it. */
  lemma TooLong(p: Parser, ch: Byte)
    ensures p.phase == GetLine && |p.line| >= 4095 && ch !in {'}' as int, '*' as int, '#' as int} ==> Advance(p, ch) == p.(phase := Idle)
    ensures p.phase == Escape && |p.line| >= 4095 && ch != '#' as int ==> Advance(p, ch) == p.(phase := Idle)
    ensures p.phase == Repeat && ' ' as int <= ch <= '~' as int && ch != '#' as int && ch != '$' as int && |p.line| + ch - 29 >= 4095
      ==> Advance(p, ch) == p.(phase := Idle)
  {
  }

  /** A bad run count, a run of nothing and a bad checksum digit are skipped, and an escaped '#' still ends the packet. */
  lemma Skipped(p: Parser, ch: Byte)
    ensures p.phase == Repeat && (ch < ' ' as int || ch > '~' as int || ch == '#' as int || ch == '$' as int) ==> Advance(p, ch) == p.(phase := GetLine)
    ensures p.phase == Repeat && p.line == [] && |p.line| + ch - 29 < 4095 ==> Advance(p, ch) == p.(phase := GetLine)
    ensures (p.phase == Checksum1 || p.phase == Checksum2) && !IsHex(ch) ==> Advance(p, ch) == p.(phase := GetLine)
    ensures p.phase == Escape && ch == '#' as int ==> Advance(p, ch) == p.(phase := Checksum1)
  {
  }

  // ----- bounds, for every byte stream ----------------------------------------------------

  ghost predicate InBounds(p: Parser) {
    |p.line| <= MAX_PACKET_LENGTH - 1 && (p.phase == Checksum2 ==> p.csum % 16 == 0 && p.csum < 256)
  }

  lemma {:induction false} AlwaysInBounds(s: Session, bytes: seq<Byte>, h: Handler)
    requires InBounds(s.parser)
    ensures InBounds(Reads(s, bytes, h).session.parser)
    ensures forall cmd :: cmd in Reads(s, bytes, h).cmds ==> |cmd| <= MAX_PACKET_LENGTH - 1
    decreases |bytes|
  {
    if bytes != [] {
      AlwaysInBounds(Read(s, bytes[0], h).session, bytes[1..], h);
    }
  }

  // ----- what a packet means --------------------------------------------------------------

  /** The pieces of a packet body: a plain byte, an escaped byte, a repetition of the byte before. */
  datatype Token = Lit(b: Byte) | Esc(b: Byte) | Run(count: Byte)

  predicate ValidToken(t: Token) {
    match t
    case Lit(b) => b != BRACE && b != STAR && b != HASH
    case Esc(b) => b != HASH
    case Run(count) => ValidCount(count)
  }

  predicate ValidBody(ts: seq<Token>) {
    (forall t :: t in ts ==> ValidToken(t)) && (ts != [] ==> !ts[0].Run?)
  }

  function TokenWire(t: Token): seq<Byte> {
    match t
    case Lit(b) => [b]
    case Esc(b) => [BRACE, b]
    case Run(count) => [STAR, count]
  }

  function Wire(ts: seq<Token>): seq<Byte> {
    if ts == [] then [] else TokenWire(ts[0]) + Wire(ts[1..])
  }

  /** The bytes after one more piece, or None where the receiver's buffer cannot take it. */
  function Extend(line: seq<Byte>, t: Token): Option<seq<Byte>>
    requires t.Run? ==> line != [] && t.count >= 32
  {
    match t
    case Lit(b) => if |line| < 4095 then Some(line + [b]) else None
    case Esc(b) => if |line| < 4095 then Some(line + [Flip(b)]) else None
    case Run(count) => if |line| + (count - 29) < 4095 then Some(line + Times(count - 29, line[|line| - 1])) else None
  }

  function Meaning(line: seq<Byte>, ts: seq<Token>): Option<seq<Byte>>
    requires forall t :: t in ts ==> ValidToken(t)
    requires line == [] && ts != [] ==> !ts[0].Run?
    decreases |ts|
  {
    if ts == [] then Some(line) else
      assert ValidToken(ts[0]);
      match Extend(line, ts[0])
      case None => None
      case Some(line') => Meaning(line', ts[1..])
  }

  /** A run repeats the byte before it three times for a blank, and once more for each step from there. */
  lemma RunMeans(line: seq<Byte>, b: Byte, count: Byte)
    requires ValidCount(count) && |line| + 1 + (count - 29) < 4095
    ensures TokenWire(Run(count)) == ['*' as int, count]
    ensures var r := Extend(line + [b], Run(count));
      && r.Some? && line + [b] <= r.value && |r.value| == |line| + 1 + 3 + (count - ' ' as int)
      && forall k :: |line| <= k < |r.value| ==> r.value[k] == b
  {
  }

  ghost predicate Stopped(s: Session, phase: Phase) {
    s.last == [] && !s.running && s.parser.phase == phase
  }

  /** One piece, read in the middle of a packet. */
  lemma OneToken(s: Session, t: Token, h: Handler)
    requires Stopped(s, GetLine) && ValidToken(t) && (t.Run? ==> s.parser.line != [])
    ensures var o := Reads(s, TokenWire(t), h);
      && o.sent == [] && o.cmds == []
      && match Extend(s.parser.line, t)
         case None => Stopped(o.session, Idle)
         case Some(line') => o.session == s.(parser := s.parser.(line := line', sum := s.parser.sum + Sum(TokenWire(t))))
  {
    match t
    case Lit(b) =>
      ReadsOne(s, b, h);
      assert Sum([b]) == b + Sum([b][1..]);
    case Esc(b) =>
      ReadsTwo(s, BRACE, b, h);
    case Run(count) =>
      ReadsTwo(s, STAR, count, h);
  }

  /** An idle stub ignores everything up to the next start of a packet. */
  lemma {:induction false} IdleIgnores(s: Session, bytes: seq<Byte>, h: Handler)
    requires Stopped(s, Idle) && DOLLAR !in bytes
    ensures Reads(s, bytes, h) == Output(s, [], [])
    decreases |bytes|
  {
    if bytes != [] {
      assert bytes[0] in bytes && Read(s, bytes[0], h) == Output(s, [], []);
      IdleIgnores(s, bytes[1..], h);
    }
  }

  lemma {:induction false} Body(s: Session, ts: seq<Token>, h: Handler)
    requires Stopped(s, GetLine) && forall t :: t in ts ==> ValidToken(t)
    requires s.parser.line == [] && ts != [] ==> !ts[0].Run?
    requires Meaning(s.parser.line, ts).None? ==> DOLLAR !in Wire(ts)
    ensures var o := Reads(s, Wire(ts), h);
      && o.sent == [] && o.cmds == []
      && match Meaning(s.parser.line, ts)
         case None => Stopped(o.session, Idle)
         case Some(line') => o.session == s.(parser := s.parser.(line := line', sum := s.parser.sum + Sum(Wire(ts))))
    decreases |ts|
  {
    if ts != [] {
      var w, rest := TokenWire(ts[0]), Wire(ts[1..]);
      OneToken(s, ts[0], h);
      ReadsConcat(s, w, rest, h);
      SumConcat(w, rest);
      var s1 := Reads(s, w, h).session;
      if Extend(s.parser.line, ts[0]).None? {
        IdleIgnores(s1, rest, h);
      } else {
        Body(s1, ts[1..], h);
      }
    }
  }

  /** The end of a packet: one reply, and the command exactly when the checksum agrees. */
  lemma Trailer(s: Session, d1: Byte, d2: Byte, h: Handler)
    requires Stopped(s, GetLine) && IsHex(d1) && IsHex(d2)
    ensures var o := Reads(s, [HASH, d1, d2], h); var line := s.parser.line;
      && o.session.parser.phase == Idle
      && if FromHex(d1) * 16 + FromHex(d2) == s.parser.sum % 256
         then o.sent == [PLUS] && o.cmds == [line] && o.session.last == h(line).last && o.session.running == h(line).running
         else o.sent == [MINUS] && o.cmds == [] && Stopped(o.session, Idle)
  {
    var o1 := Read(s, HASH, h);
    assert [HASH, d1, d2][1..] == [d1, d2];
    ReadsTwo(o1.session, d1, d2, h);
  }

  /**
   * A whole packet sent to an idle, stopped stub, whatever reply it was waiting on. It is
   * acknowledged and handed on decoded exactly when it fits the buffer and the checksum agrees;
   * refused when only the checksum is wrong; dropped in silence when it does not fit.
   */
  lemma PacketMeaning(s: Session, ts: seq<Token>, d1: Byte, d2: Byte, h: Handler)
    requires s.parser.phase == Idle && !s.running && ValidBody(ts) && IsHex(d1) && IsHex(d2)
    requires Meaning([], ts).None? ==> DOLLAR !in Wire(ts)
    ensures var o := Reads(s, [DOLLAR] + Wire(ts) + [HASH, d1, d2], h);
      && o.session.parser.phase == Idle
      && match Meaning([], ts)
         case None => o.sent == [] && o.cmds == []
         case Some(line) =>
           if FromHex(d1) * 16 + FromHex(d2) == Sum(Wire(ts)) % 256
           then o.sent == [PLUS] && o.cmds == [line] && o.session.last == h(line).last && o.session.running == h(line).running
           else o.sent == [MINUS] && o.cmds == []
  {
    var w, tail := Wire(ts), [HASH, d1, d2];
    assert [DOLLAR] + w + tail == [DOLLAR] + (w + tail) && ([DOLLAR] + (w + tail))[1..] == w + tail;
    var s1 := Read(s, DOLLAR, h).session;
    assert Stopped(s1, GetLine) && s1.parser.line == [] && s1.parser.sum == 0;
    ReadsConcat(s1, w, tail, h);
    Body(s1, ts, h);
    var s2 := Reads(s1, w, h).session;
    if Meaning([], ts).None? {
      IdleIgnores(s2, tail, h);
    } else {
      Trailer(s2, d1, d2, h);
    }
  }

  // ----- the sender -----------------------------------------------------------------------

  predicate Special(ch: Byte) {
    ch == HASH || ch == DOLLAR || ch == STAR || ch == BRACE
  }

  function EncodeOne(ch: Byte): Token {
    if Special(ch) then Esc(Flip(ch)) else Lit(ch)
  }

  function Tokens(mem: seq<Byte>): (ts: seq<Token>)
    ensures |ts| == |mem| && forall i :: 0 <= i < |mem| ==> ts[i] == EncodeOne(mem[i])
  {
    seq(|mem|, i requires 0 <= i < |mem| => EncodeOne(mem[i]))
  }

  function Encode(mem: seq<Byte>): seq<Byte> {
    Wire(Tokens(mem))
  }

  /** Exactly the four bytes that mean something are escaped, and every other byte stands for itself. */
  lemma EncodeMeans(ch: Byte)
    ensures if ch in {'#' as int, '$' as int, '*' as int, '}' as int}
      then TokenWire(EncodeOne(ch)) == ['}' as int, Flip(ch)] else TokenWire(EncodeOne(ch)) == [ch]
  {
  }

  lemma {:induction false} WireConcat(a: seq<Token>, b: seq<Token>)
    ensures Wire(a + b) == Wire(a) + Wire(b)
  {
    if a == [] {
      assert a + b == b;
    } else {
      assert (a + b)[1..] == a[1..] + b;
      WireConcat(a[1..], b);
    }
  }

  /** memtox (gdbstub.c:723-739). */
  method MemToX(buf: seq<Byte>, mem: seq<Byte>) returns (buf': seq<Byte>)
    ensures buf' == buf + Encode(mem)
  {
    buf' := buf;
    for i := 0 to |mem|
      invariant buf' == buf + Encode(mem[..i])
    {
      var c := mem[i];
      assert Tokens(mem[..i + 1]) == Tokens(mem[..i]) + [EncodeOne(c)];
      WireConcat(Tokens(mem[..i]), [EncodeOne(c)]);
      assert [EncodeOne(c)][1..] == [];
      assert Wire([EncodeOne(c)]) == TokenWire(EncodeOne(c)) + Wire([]);
      if c == HASH || c == DOLLAR || c == STAR || c == BRACE {
        buf' := buf' + [BRACE];
        buf' := buf' + [Flip(c)];
      } else {
        buf' := buf' + [c];
      }
    }
    assert mem[..|mem|] == mem;
  }

  /** The value of a C char. */
  function Signed(b: Byte): int {
    if b < 128 then b else b - 256
  }

  function SignedSum(bytes: seq<Byte>): int {
    if bytes == [] then 0 else SignedSum(bytes[..|bytes| - 1]) + Signed(bytes[|bytes| - 1])
  }

  /** The sender adds signed bytes and the receiver unsigned ones: the low eight bits agree. */
  lemma {:induction false} SignedSumMod(bytes: seq<Byte>)
    ensures SignedSum(bytes) % 256 == Sum(bytes) % 256
  {
    if bytes != [] {
      var front, x := bytes[..|bytes| - 1], bytes[|bytes| - 1];
      SignedSumMod(front);
      SumConcat(front, [x]);
      assert front + [x] == bytes && Sum([x]) == x + Sum([x][1..]);
      SameMod(SignedSum(front), Sum(front), x);
    }
  }

  lemma SameMod(a: int, b: int, x: Byte)
    requires a % 256 == b % 256
    ensures (a + Signed(x)) % 256 == (b + x) % 256
  {
    var k := (a - b) / 256;
    assert a == b + 256 * k;
    var k' := if x < 128 then k else k - 1;
    assert a + Signed(x) == b + x + 256 * k';
  }

  function Packet(body: seq<Byte>): seq<Byte> {
    [DOLLAR] + body + [HASH, ToHex(Sum(body) / 16 % 16), ToHex(Sum(body) % 16)]
  }

  lemma NibblesMod(a: int, b: int)
    requires a % 256 == b % 256
    ensures a / 16 % 16 == b / 16 % 16 && a % 16 == b % 16
  {
    Split(a);
    Split(b);
  }

  lemma NibblesValue(a: nat)
    ensures (a / 16 % 16) * 16 + a % 16 == a % 256
  {
    Split(a);
  }

  /** The low byte and its two digits. */
  lemma Split(a: int)
    ensures a % 16 == a % 256 % 16 && a / 16 % 16 == a % 256 / 16
    ensures a % 256 == a % 256 / 16 * 16 + a % 16
  {
    var k, x := a / 256, a % 256;
    var u, r := x / 16, x % 16;
    assert a == 16 * (16 * k + u) + r && 0 <= r < 16 && 0 <= u < 16;
    Digit(16 * k + u, r);
    Digit(k, u);
  }

  lemma Digit(q: int, r: int)
    requires 0 <= r < 16
    ensures (16 * q + r) / 16 == q && (16 * q + r) % 16 == r
  {
  }

  /** The receiver's reading of an encoded payload is the payload, when there is room for it. */
  lemma {:induction false} EncodedMeaning(line: seq<Byte>, mem: seq<Byte>)
    requires |line| <= 4095
    ensures forall t :: t in Tokens(mem) ==> ValidToken(t)
    ensures mem != [] ==> !Tokens(mem)[0].Run?
    ensures Meaning(line, Tokens(mem)) == if |line| + |mem| <= 4095 then Some(line + mem) else None
    decreases |mem|
  {
    if mem == [] {
      assert line + mem == line;
    } else {
      var t := EncodeOne(mem[0]);
      FlipTwice(mem[0]);
      assert Tokens(mem)[1..] == Tokens(mem[1..]);
      if |line| < 4095 {
        EncodedMeaning(line + [mem[0]], mem[1..]);
        assert line + [mem[0]] + mem[1..] == line + mem;
      }
    }
  }

  lemma {:induction false} EncodedClean(mem: seq<Byte>)
    ensures DOLLAR !in Encode(mem) && HASH !in Encode(mem) && STAR !in Encode(mem)
  {
    if mem != [] {
      assert Tokens(mem)[1..] == Tokens(mem[1..]);
      EncodedClean(mem[1..]);
    }
  }

  /**
   * Round trip: an encoded payload sent as a packet to an idle, stopped stub comes out as
   * exactly that payload and is acknowledged if and only if it has at most 4095 bytes.
   */
  lemma RoundTrip(s: Session, payload: seq<Byte>, h: Handler)
    requires s.parser.phase == Idle && !s.running
    ensures var o := Reads(s, Packet(Encode(payload)), h);
      && o.session.parser.phase == Idle
      && if |payload| <= MAX_PACKET_LENGTH - 1
         then o.sent == [PLUS] && o.cmds == [payload] && o.session.last == h(payload).last
         else o.sent == [] && o.cmds == []
  {
    var ts := Tokens(payload);
    EncodedMeaning([], payload);
    EncodedClean(payload);
    assert [] + payload == payload;
    var sum := Sum(Encode(payload));
    NibblesValue(sum);
    PacketMeaning(s, ts, ToHex(sum / 16 % 16), ToHex(sum % 16), h);
  }

  // ----- the stub -------------------------------------------------------------------------

  class Stub {
    var phase: Phase
    const lineBuf: array<Byte>
    var index: int
    var sum: nat
    var csum: nat
    var lastPacket: seq<Byte>
    var running: bool

    /** The index never leaves 0..4095, and a packet being checked is terminated. */
    ghost predicate Valid()
      reads this, lineBuf
    {
      && lineBuf.Length == MAX_PACKET_LENGTH
      && 0 <= index <= MAX_PACKET_LENGTH - 1
      && (phase == Checksum2 ==> lineBuf[index] == 0 && csum % 16 == 0 && csum < 256)
    }

    ghost function S(): Session
      requires Valid()
      reads this, lineBuf
    {
      Session(Parser(phase, lineBuf[..index], sum, csum), lastPacket, running)
    }

    constructor ()
      ensures Valid() && fresh(lineBuf)
      ensures S() == Session(Parser(Idle, [], 0, 0), [], false)
    {
      lineBuf := new Byte[MAX_PACKET_LENGTH];
      phase, index, sum, csum, lastPacket, running := Idle, 0, 0, 0, [], false;
    }

    /** put_packet_binary (gdbstub.c:669-707). */
    method PutPacket(buf: seq<Byte>) returns (sent: seq<Byte>)
      requires Valid()
      modifies this`lastPacket
      ensures Valid() && lastPacket == sent == Packet(buf)
    {
      lastPacket := [DOLLAR] + buf;
      var c := 0;
      for i := 0 to |buf|
        invariant c == SignedSum(buf[..i])
      {
        assert buf[..i + 1][..i] == buf[..i];
        c := c + Signed(buf[i]);
      }
      assert buf[..|buf|] == buf;
      SignedSumMod(buf);
      NibblesMod(c, Sum(buf));
      lastPacket := lastPacket + [HASH, ToHex(c / 16 % 16), ToHex(c % 16)];
      sent := lastPacket;
    }

    /** gdb_read_byte (gdbstub.c:2999-3144); `h` is what the command handler does. */
    method ReadByte(ch: Byte, h: Handler) returns (sent: seq<Byte>, cmds: seq<seq<Byte>>)
      requires Valid()
      modifies this, lineBuf
      ensures Valid()
      ensures Output(S(), sent, cmds) == Read(old(S()), ch, h)
    {
      sent, cmds := [], [];
      if |lastPacket| != 0 {
        if ch == MINUS {
          sent := lastPacket;
        }
        if ch == PLUS || ch == DOLLAR {
          lastPacket := [];
        }
        if ch != DOLLAR {
          return;
        }
      }
      if running {
        running := false;
      } else if phase == Checksum1 || phase == Checksum2 {
        sent, cmds := CheckDigit(ch, h);
      } else if phase == Idle {
        if ch == DOLLAR {
          index, sum, phase := 0, 0, GetLine;
        }
      } else {
        LineByte(ch);
      }
    }

    /** The cases RS_GETLINE, RS_GETLINE_ESC and RS_GETLINE_RLE. */
    method LineByte(ch: Byte)
      requires Valid() && (phase == GetLine || phase == Escape || phase == Repeat)
      modifies this`phase, this`index, this`sum, lineBuf
      ensures Valid()
      ensures S() == old(S()).(parser := Advance(old(S()).parser, ch))
    {
      ghost var line := lineBuf[..index];
      if phase == GetLine {
        if ch == BRACE {
          phase, sum := Escape, sum + ch;
        } else if ch == STAR {
          phase, sum := Repeat, sum + ch;
        } else if ch == HASH {
          phase := Checksum1;
        } else if index >= lineBuf.Length - 1 {
          phase := Idle;
        } else {
          lineBuf[index] := ch;
          index, sum := index + 1, sum + ch;
          assert lineBuf[..index] == line + [ch];
        }
      } else if phase == Escape {
        if ch == HASH {
          phase := Checksum1;
        } else if index >= lineBuf.Length - 1 {
          phase := Idle;
        } else {
          lineBuf[index] := Flip(ch);
          index, sum, phase := index + 1, sum + ch, GetLine;
          assert lineBuf[..index] == line + [Flip(ch)];
        }
      } else {
        if ch < 32 || ch == HASH || ch == DOLLAR || ch > 126 {
          phase := GetLine;
        } else {
          var repeat := ch - 32 + 3;
          if index + repeat >= lineBuf.Length - 1 {
            phase := Idle;
          } else if index < 1 {
            phase := GetLine;
          } else {
            Fill(index, lineBuf[index - 1], repeat);
            index, sum, phase := index + repeat, sum + ch, GetLine;
          }
        }
      }
    }

    /** memset into the line buffer. */
    method Fill(at: nat, value: Byte, count: nat)
      requires at + count <= lineBuf.Length
      modifies lineBuf
      ensures lineBuf[..at + count] == old(lineBuf[..at]) + Times(count, value)
      ensures forall k :: at + count <= k < lineBuf.Length ==> lineBuf[k] == old(lineBuf[k])
    {
      for i := 0 to count
        invariant forall k :: 0 <= k < at ==> lineBuf[k] == old(lineBuf[k])
        invariant forall k :: at <= k < at + i ==> lineBuf[k] == value
        invariant forall k :: at + i <= k < lineBuf.Length ==> lineBuf[k] == old(lineBuf[k])
      {
        lineBuf[at + i] := value;
      }
    }

    /** The cases RS_CHKSUM1 and RS_CHKSUM2. */
    method CheckDigit(ch: Byte, h: Handler) returns (sent: seq<Byte>, cmds: seq<seq<Byte>>)
      requires Valid() && (phase == Checksum1 || phase == Checksum2) && lastPacket == [] && !running
      modifies this`phase, this`csum, this`lastPacket, this`running, lineBuf
      ensures Valid()
      ensures Output(S(), sent, cmds) == Read(old(S()), ch, h)
    {
      sent, cmds := [], [];
      if !IsHex(ch) {
        phase := GetLine;
      } else if phase == Checksum1 {
        lineBuf[index] := 0;
        csum, phase := FromHex(ch) * 16, Checksum2;
        assert lineBuf[..index] == old(lineBuf[..index]);
      } else {
        csum := csum + FromHex(ch);
        phase := Idle;
        if csum != sum % 256 {
          sent := [MINUS];
        } else {
          sent, cmds := [PLUS], [lineBuf[..index]];
          var r := h(lineBuf[..index]);
          lastPacket, running := r.last, r.running;
        }
      }
    }
  }
}
