/**
  The shared print buffer of include/udbgfs.c at the granularity of single loads and stores:
  writers are serialised by the spinlock, readers take no lock. Loads and stores are sequentially
  consistent.
 */
module SharedLog {
  import opened Words

  const DATA_BUF_SIZE: nat := 1024

  const NUL := '\0'

  /** Where the writer that holds the lock is in `test_printk`; `k` bytes are formatted. */
  datatype Writer =
    | Free
    | Formatting(msg: string, k: nat)
    | Advancing(msg: string)
    | Publishing(msg: string)
    | Shrinking(msg: string)

  /** Where a reader is in `read_data`: it has seen a nonempty log, or is copying `n` bytes. */
  datatype ReadCall = Idle | Checked(count: nat) | Copying(n: nat, done: nat)

  datatype Reader = Reader(ppos: nat, received: string, call: ReadCall)

  datatype Buffer = Buffer(data: string, cur: nat, bytesInBuf: Word, bytesLeft: Word)

  /** `locked` is the history of messages in the order in which their writers took the lock. */
  datatype State = State(buf: Buffer, writer: Writer, readers: seq<Reader>, locked: seq<string>)

  datatype Label =
    | Lock(msg: string)
    | Write
    | Open
    | BeginRead(r: nat, count: nat)
    | Size(r: nat)
    | CopyByte(r: nat)
    | EndRead(r: nat)

  /** `set_up_print_buffer`: the contents of the allocated buffer are arbitrary. */
  function SetUp(garbage: string): State {
    State(Buffer(garbage, 0, 0, DATA_BUF_SIZE), Free, [], [])
  }

  // ---------- The writer ----------

  /** How many characters `vsnprintf` stores; a NUL follows them when there is any room. */
  function Kept(len: nat, left: Word): nat {
    if left == 0 then 0 else if len < left then len else left - 1
  }

  /** A store; one past the end of the buffer hits other memory. */
  function StoreAt(data: string, i: nat, c: char): (r: string)
    ensures |r| == |data|
  {
    if i < |data| then data[i := c] else data
  }

  function WriterBuf(buf: Buffer, w: Writer): Buffer {
    match w
    case Free => buf
    case Formatting(msg, k) =>
      if k < Kept(|msg|, buf.bytesLeft) then buf.(data := StoreAt(buf.data, buf.cur + k, msg[k]))
      else if buf.bytesLeft > 0 then buf.(data := StoreAt(buf.data, buf.cur + k, NUL))
      else buf
    case Advancing(msg) => buf.(cur := buf.cur + |msg|)
    case Publishing(msg) => buf.(bytesInBuf := (buf.bytesInBuf + |msg|) % WORD)
    case Shrinking(msg) => buf.(bytesLeft := (buf.bytesLeft - |msg|) % WORD)
  }

  function WriterNext(buf: Buffer, w: Writer): Writer {
    match w
    case Free => Free
    case Formatting(msg, k) => if k < Kept(|msg|, buf.bytesLeft) then Formatting(msg, k + 1) else Advancing(msg)
    case Advancing(msg) => Publishing(msg)
    case Publishing(msg) => Shrinking(msg)
    case Shrinking(_) => Free
  }

  // ---------- The machine ----------

  predicate Enabled(s: State, l: Label) {
    match l
    case Lock(_) => s.writer.Free?
    case Write => !s.writer.Free?
    case Open => true
    case BeginRead(r, _) => r < |s.readers| && s.readers[r].call.Idle?
    case Size(r) => r < |s.readers| && s.readers[r].call.Checked?
    case CopyByte(r) =>
      r < |s.readers| && s.readers[r].call.Copying? && s.readers[r].call.done < s.readers[r].call.n
    case EndRead(r) =>
      r < |s.readers| && s.readers[r].call.Copying? && s.readers[r].call.done == s.readers[r].call.n
  }

  /** `simple_read_from_buffer` after it learned how many bytes are available. */
  function Clip(reader: Reader, count: nat, available: nat): Reader {
    if reader.ppos >= available || count == 0 then reader.(call := Idle)
    else reader.(call := Copying(if count > available - reader.ppos then available - reader.ppos else count, 0))
  }

  function ReadNext(buf: Buffer, reader: Reader, l: Label): Reader {
    match l
    case BeginRead(_, count) => if buf.bytesInBuf == 0 then reader else reader.(call := Checked(count))
    case Size(_) => if reader.call.Checked? then Clip(reader, reader.call.count, buf.bytesInBuf) else reader
    case CopyByte(_) =>
      if reader.call.Copying? && reader.ppos + reader.call.done < |buf.data| then
        reader.(received := reader.received + [buf.data[reader.ppos + reader.call.done]],
                call := Copying(reader.call.n, reader.call.done + 1))
      else reader
    case EndRead(_) =>
      if reader.call.Copying? then reader.(ppos := reader.ppos + reader.call.n, call := Idle) else reader
    case _ => reader
  }

  function Next(s: State, l: Label): State
    requires Enabled(s, l)
  {
    match l
    case Lock(msg) => s.(writer := Formatting(msg, 0), locked := s.locked + [msg])
    case Write => s.(buf := WriterBuf(s.buf, s.writer), writer := WriterNext(s.buf, s.writer))
    case Open => s.(readers := s.readers + [Reader(0, "", Idle)])
    case BeginRead(r, _) => s.(readers := s.readers[r := ReadNext(s.buf, s.readers[r], l)])
    case Size(r) => s.(readers := s.readers[r := ReadNext(s.buf, s.readers[r], l)])
    case CopyByte(r) => s.(readers := s.readers[r := ReadNext(s.buf, s.readers[r], l)])
    case EndRead(r) => s.(readers := s.readers[r := ReadNext(s.buf, s.readers[r], l)])
  }

  predicate Valid(s: State, labels: seq<Label>)
    decreases |labels|
  {
    labels == [] || (Enabled(s, labels[0]) && Valid(Next(s, labels[0]), labels[1..]))
  }

  function Exec(s: State, labels: seq<Label>): State
    requires Valid(s, labels)
    decreases |labels|
  {
    if labels == [] then s else Exec(Next(s, labels[0]), labels[1..])
  }

  // ---------- The log ----------

  /** All messages one after the other. */
  function Concat(msgs: seq<string>): string {
    if msgs == [] then "" else Concat(msgs[..|msgs| - 1]) + msgs[|msgs| - 1]
  }

  /** Whether the last message of the history is still to be counted in `bytes_in_buf`. */
  predicate Pending(w: Writer) {
    w.Formatting? || w.Advancing? || w.Publishing?
  }

  /** The messages that readers can see. */
  function Published(s: State): string {
    if Pending(s.writer) && s.locked != [] then Concat(s.locked[..|s.locked| - 1]) else Concat(s.locked)
  }

  /** One label's share of what a run prints. */
  function More(l: Label): string {
    if l.Lock? then l.msg else ""
  }

  /** The messages that a run prints. */
  function Printed(labels: seq<Label>): string {
    if labels == [] then ""
    else More(labels[0]) + Printed(labels[1..])
  }

  // ---------- The invariant ----------

  predicate Room(buf: Buffer, log: nat) {
    buf.cur == log && buf.bytesLeft == DATA_BUF_SIZE - log
  }

  /** The message is in the buffer behind the log. */
  predicate Stored(data: string, log: nat, msg: string, k: nat) {
    log + |msg| < DATA_BUF_SIZE == |data| && k <= |msg| && data[log..log + k] == msg[..k]
  }

  /** The buffer and its writer, when `log` bytes are what readers may see. */
  predicate WriterOk(buf: Buffer, w: Writer, log: nat) {
    match w
    case Free => Room(buf, log)
    case Formatting(msg, k) => Room(buf, log) && Stored(buf.data, log, msg, k)
    case Advancing(msg) => Room(buf, log) && Stored(buf.data, log, msg, |msg|)
    case Publishing(msg) =>
      buf.cur == log + |msg| && buf.bytesLeft == DATA_BUF_SIZE - log && Stored(buf.data, log, msg, |msg|)
    case Shrinking(msg) =>
      buf.cur == log && |msg| <= log && buf.bytesLeft == DATA_BUF_SIZE - log + |msg|
  }

  predicate BufferOk(buf: Buffer, log: string) {
    |buf.data| == DATA_BUF_SIZE && buf.bytesInBuf == |log| < DATA_BUF_SIZE && buf.data[..|log|] == log
  }

  function Done(call: ReadCall): nat {
    if call.Copying? then call.done else 0
  }

  /** A reader has received exactly the front of the log. */
  predicate ReaderOk(reader: Reader, log: string) {
    var got := reader.ppos + Done(reader.call);
    && got <= |log| && reader.received == log[..got]
    && (reader.call.Copying? ==> reader.call.done <= reader.call.n && reader.ppos + reader.call.n <= |log|)
  }

  predicate ReadersOk(readers: seq<Reader>, log: string) {
    forall r :: 0 <= r < |readers| ==> ReaderOk(readers[r], log)
  }

  predicate Current(w: Writer, locked: seq<string>) {
    match w
    case Free => true
    case Formatting(msg, _) => locked != [] && locked[|locked| - 1] == msg
    case Advancing(msg) => locked != [] && locked[|locked| - 1] == msg
    case Publishing(msg) => locked != [] && locked[|locked| - 1] == msg
    case Shrinking(msg) => locked != [] && locked[|locked| - 1] == msg
  }

  predicate Inv(s: State) {
    && BufferOk(s.buf, Published(s)) && WriterOk(s.buf, s.writer, |Published(s)|)
    && ReadersOk(s.readers, Published(s)) && Current(s.writer, s.locked)
  }

  // ---------- Steps of the writer ----------

  lemma FormatStep(buf: Buffer, msg: string, k: nat, log: string)
    requires BufferOk(buf, log) && WriterOk(buf, Formatting(msg, k), |log|)
    ensures var w, b := WriterNext(buf, Formatting(msg, k)), WriterBuf(buf, Formatting(msg, k));
            BufferOk(b, log) && WriterOk(b, w, |log|)
  {
    var b, i := WriterBuf(buf, Formatting(msg, k)), |log| + k;
    assert Kept(|msg|, buf.bytesLeft) == |msg|;
    assert b.data[..i] == buf.data[..i];
    assert b.data[..|log|] == b.data[..i][..|log|] && buf.data[..|log|] == buf.data[..i][..|log|];
    assert b.data[|log|..i] == b.data[..i][|log|..] && buf.data[|log|..i] == buf.data[..i][|log|..];
    if k < |msg| {
      assert b.data[|log|..i + 1] == b.data[|log|..i] + [msg[k]];
      assert msg[..k + 1] == msg[..k] + [msg[k]];
    } else {
      assert msg[..k] == msg;
    }
  }

  lemma PublishStep(buf: Buffer, msg: string, log: string)
    requires BufferOk(buf, log) && WriterOk(buf, Publishing(msg), |log|)
    ensures var b := WriterBuf(buf, Publishing(msg));
            BufferOk(b, log + msg) && WriterOk(b, Shrinking(msg), |log + msg|)
  {
    assert buf.data[..|log + msg|] == buf.data[..|log|] + buf.data[|log|..|log| + |msg|];
  }

  /** What a reader has stays the front of a log that grew. */
  lemma ReadersKeep(readers: seq<Reader>, log: string, more: string)
    requires ReadersOk(readers, log)
    ensures ReadersOk(readers, log + more)
  {
  }

  lemma WriteKeepsInv(s: State)
    requires Inv(s) && !s.writer.Free?
    ensures Inv(Next(s, Write))
  {
    var log, r := Published(s), Next(s, Write);
    match s.writer
    case Formatting(msg, k) =>
      FormatStep(s.buf, msg, k, log);
      assert Published(r) == log;
    case Advancing(msg) =>
      assert Published(r) == log;
    case Publishing(msg) =>
      PublishStep(s.buf, msg, log);
      ReadersKeep(s.readers, log, msg);
      assert Published(r) == log + msg;
    case Shrinking(msg) =>
      assert Published(r) == log;
  }

  lemma LockKeepsInv(s: State, msg: string)
    requires Inv(s) && s.writer.Free? && |Published(s)| + |msg| < DATA_BUF_SIZE
    ensures Inv(Next(s, Lock(msg)))
  {
  }

  // ---------- Steps of the readers ----------

  lemma ReadStep(buf: Buffer, reader: Reader, l: Label, log: string)
    requires BufferOk(buf, log) && ReaderOk(reader, log)
    requires l.CopyByte? ==> reader.call.Copying? && reader.call.done < reader.call.n
    requires l.EndRead? ==> reader.call.Copying? && reader.call.done == reader.call.n
    requires l.BeginRead? ==> reader.call.Idle?
    ensures ReaderOk(ReadNext(buf, reader, l), log)
  {
  }

  lemma ReadKeepsInv(s: State, r: nat, l: Label)
    requires Inv(s) && Enabled(s, l) && r < |s.readers|
    requires l.CopyByte? || l.EndRead? || l.BeginRead? || l.Size?
    requires l.r == r
    ensures Inv(Next(s, l))
  {
    assert ReaderOk(s.readers[r], Published(s));
    ReadStep(s.buf, s.readers[r], l, Published(s));
    assert Published(Next(s, l)) == Published(s);
  }

  lemma StepKeepsInv(s: State, l: Label)
    requires Inv(s) && Enabled(s, l) && (l.Lock? ==> |Published(s)| + |l.msg| < DATA_BUF_SIZE)
    ensures Inv(Next(s, l))
  {
    match l
    case Lock(msg) => LockKeepsInv(s, msg);
    case Write => WriteKeepsInv(s);
    case Open =>
      assert ReaderOk(Reader(0, "", Idle), Published(s));
      assert Published(Next(s, l)) == Published(s);
    case BeginRead(r, _) => ReadKeepsInv(s, r, l);
    case Size(r) => ReadKeepsInv(s, r, l);
    case CopyByte(r) => ReadKeepsInv(s, r, l);
    case EndRead(r) => ReadKeepsInv(s, r, l);
  }

  // ---------- Whole runs ----------

  lemma NextPrints(s: State, l: Label)
    requires Enabled(s, l)
    ensures Concat(Next(s, l).locked) == Concat(s.locked) + More(l)
  {
  }

  lemma PublishedPrefix(s: State)
    ensures Published(s) <= Concat(s.locked) && (s.writer.Free? ==> Published(s) == Concat(s.locked))
  {
  }

  lemma PrintedGrows(s: State, labels: seq<Label>)
    requires labels != [] && Enabled(s, labels[0])
    ensures Concat(Next(s, labels[0]).locked) == Concat(s.locked) + More(labels[0])
    ensures Concat(s.locked) + Printed(labels) == Concat(Next(s, labels[0]).locked) + Printed(labels[1..])
  {
    NextPrints(s, labels[0]);
    Regroup(Concat(s.locked), More(labels[0]), Printed(labels[1..]));
  }

  lemma Regroup(a: string, b: string, c: string)
    ensures (a + b) + c == a + (b + c)
  {
  }

  lemma LockFits(s: State, labels: seq<Label>)
    requires labels != [] && Enabled(s, labels[0]) && |Concat(s.locked)| + |Printed(labels)| < DATA_BUF_SIZE
    ensures labels[0].Lock? ==> |Published(s)| + |labels[0].msg| < DATA_BUF_SIZE
  {
    PublishedPrefix(s);
  }

  lemma {:induction false} RunKeepsInv(s: State, labels: seq<Label>)
    requires Inv(s) && Valid(s, labels) && |Concat(s.locked)| + |Printed(labels)| < DATA_BUF_SIZE
    ensures Inv(Exec(s, labels)) && Concat(Exec(s, labels).locked) == Concat(s.locked) + Printed(labels)
    decreases |labels|
  {
    if labels == [] {
      assert Concat(s.locked) + Printed(labels) == Concat(s.locked);
    } else {
      PrintedGrows(s, labels);
      LockFits(s, labels);
      StepKeepsInv(s, labels[0]);
      RunKeepsInv(Next(s, labels[0]), labels[1..]);
    }
  }

  lemma SetUpInv(garbage: string)
    requires |garbage| == DATA_BUF_SIZE
    ensures Inv(SetUp(garbage))
  {
  }

  /**
    While the messages fit, at every moment the published bytes are the messages in lock order,
    the last one excepted until its writer has published it; between messages the three fields agree.
   */
  lemma LogInLockOrder(garbage: string, labels: seq<Label>)
    requires |garbage| == DATA_BUF_SIZE && Valid(SetUp(garbage), labels) && |Printed(labels)| < DATA_BUF_SIZE
    ensures var s := Exec(SetUp(garbage), labels);
            && s.buf.bytesInBuf <= |s.buf.data| == 1024
            && s.buf.data[..s.buf.bytesInBuf] == Published(s) <= Printed(labels) == Concat(s.locked)
            && (s.writer.Free? ==>
                  && s.buf.cur == s.buf.bytesInBuf && s.buf.bytesInBuf + s.buf.bytesLeft == 1024
                  && s.buf.data[..s.buf.bytesInBuf] == Printed(labels))
  {
    SetUpInv(garbage);
    RunKeepsInv(SetUp(garbage), labels);
    PublishedPrefix(Exec(SetUp(garbage), labels));
    assert Concat(SetUp(garbage).locked) + Printed(labels) == Printed(labels);
  }

  lemma PrefixOfPrefix(a: string, b: string, n: nat)
    requires a <= b && n <= |a|
    ensures a[..n] == b[..n]
  {
  }

  /** Every reader, with any sizes of its reads and whatever is printed meanwhile, holds the log's first bytes. */
  lemma ReadersHoldThePrefix(garbage: string, labels: seq<Label>, r: nat)
    requires |garbage| == DATA_BUF_SIZE && Valid(SetUp(garbage), labels) && |Printed(labels)| < DATA_BUF_SIZE
    requires r < |Exec(SetUp(garbage), labels).readers|
    ensures var reader := Exec(SetUp(garbage), labels).readers[r];
            var got := reader.ppos + Done(reader.call);
            && got <= |Printed(labels)| && reader.received == Printed(labels)[..got]
            && (!reader.call.Copying? ==> got == reader.ppos)
  {
    SetUpInv(garbage);
    RunKeepsInv(SetUp(garbage), labels);
    var s := Exec(SetUp(garbage), labels);
    PublishedPrefix(s);
    assert ReaderOk(s.readers[r], Published(s));
    PrefixOfPrefix(Published(s), Printed(labels), s.readers[r].ppos + Done(s.readers[r].call));
  }

  /** A read that asks for bytes is told of the end of the file exactly when it already has all that is published. */
  lemma EndOfFileExact(garbage: string, labels: seq<Label>, r: nat)
    requires |garbage| == DATA_BUF_SIZE && Valid(SetUp(garbage), labels) && |Printed(labels)| < DATA_BUF_SIZE
    requires var s := Exec(SetUp(garbage), labels);
             r < |s.readers| && s.readers[r].call.Checked? && s.readers[r].call.count > 0
    ensures var s := Exec(SetUp(garbage), labels);
            Next(s, Size(r)).readers[r].call.Idle? <==> s.readers[r].received == Published(s)
  {
    SetUpInv(garbage);
    RunKeepsInv(SetUp(garbage), labels);
    var s := Exec(SetUp(garbage), labels);
    assert ReaderOk(s.readers[r], Published(s));
  }

  function Min(a: nat, b: nat): nat {
    if a < b then a else b
  }

  /** A read that has learned the size copies exactly as much as it asked for, or as is there. */
  lemma ReadIsClipped(garbage: string, labels: seq<Label>, r: nat)
    requires |garbage| == DATA_BUF_SIZE && Valid(SetUp(garbage), labels) && |Printed(labels)| < DATA_BUF_SIZE
    requires var s := Exec(SetUp(garbage), labels); r < |s.readers| && s.readers[r].call.Checked?
    ensures var s := Exec(SetUp(garbage), labels);
            var before, after := s.readers[r], Next(s, Size(r)).readers[r];
            && before.ppos <= |Published(s)| && after.ppos == before.ppos && after.received == before.received
            && (after.call.Idle? <==> before.call.count == 0 || before.ppos == |Published(s)|)
            && (!after.call.Idle? ==> after.call == Copying(Min(before.call.count, |Published(s)| - before.ppos), 0))
  {
    SetUpInv(garbage);
    RunKeepsInv(SetUp(garbage), labels);
    var s := Exec(SetUp(garbage), labels);
    assert ReaderOk(s.readers[r], Published(s));
  }

  function Copies(r: nat, n: nat): seq<Label> {
    if n == 0 then [] else [CopyByte(r)] + Copies(r, n - 1)
  }

  /** The bytes and the return of a read of `n` bytes; a read of none has already returned. */
  function CopyAndEnd(r: nat, n: nat): seq<Label> {
    if n == 0 then [] else Copies(r, n) + [EndRead(r)]
  }

  predicate Has(s: State, r: nat, reader: Reader) {
    r < |s.readers| && s.readers[r] == reader
  }

  lemma ExecOne(s: State, l: Label, rest: seq<Label>)
    requires Enabled(s, l) && Valid(Next(s, l), rest)
    ensures Valid(s, [l] + rest) && Exec(s, [l] + rest) == Exec(Next(s, l), rest)
  {
    assert ([l] + rest)[1..] == rest;
  }

  /** One byte of the log. */
  lemma CopyOne(s: State, log: string, r: nat)
    requires BufferOk(s.buf, log) && r < |s.readers| && ReaderOk(s.readers[r], log) && Enabled(s, CopyByte(r))
    ensures var reader := s.readers[r];
            var from := reader.ppos + reader.call.done;
            && from < |log| && Next(s, CopyByte(r)).buf == s.buf
            && Next(s, CopyByte(r)).readers
               == s.readers[r := Reader(reader.ppos, reader.received + [log[from]],
                                        Copying(reader.call.n, reader.call.done + 1))]
  {
    var from := s.readers[r].ppos + s.readers[r].call.done;
    assert s.buf.data[from] == s.buf.data[..|log|][from];
  }

  /** The rest of a read: the bytes still to copy, and the new position. */
  lemma {:induction false} CopyingEnds(s: State, log: string, r: nat, n: nat)
    requires BufferOk(s.buf, log) && r < |s.readers| && ReaderOk(s.readers[r], log)
    requires s.readers[r].call.Copying? && s.readers[r].call.done + n == s.readers[r].call.n
    ensures Valid(s, Copies(r, n) + [EndRead(r)])
    ensures var reader := s.readers[r];
            var from := reader.ppos + reader.call.done;
            && from + n <= |log|
            && Has(Exec(s, Copies(r, n) + [EndRead(r)]), r,
                   Reader(from + n, reader.received + log[from..from + n], Idle))
    decreases n
  {
    var reader := s.readers[r];
    var from := reader.ppos + reader.call.done;
    if n == 0 {
      ExecOne(s, EndRead(r), []);
      assert Copies(r, 0) + [EndRead(r)] == [EndRead(r)] + [];
    } else {
      var next, rest := Next(s, CopyByte(r)), Copies(r, n - 1) + [EndRead(r)];
      CopyOne(s, log, r);
      ReadStep(s.buf, reader, CopyByte(r), log);
      CopyingEnds(next, log, r, n - 1);
      ExecOne(s, CopyByte(r), rest);
      assert Copies(r, n) + [EndRead(r)] == [CopyByte(r)] + rest;
      OneByteMore(reader.received, log, from, n);
    }
  }

  lemma OneByteMore(received: string, log: string, from: nat, n: nat)
    requires n > 0 && from + n <= |log|
    ensures (received + [log[from]]) + log[from + 1..from + n] == received + log[from..from + n]
  {
    assert log[from..from + n] == [log[from]] + log[from + 1..from + n];
  }

  lemma ReadEnds(s: State, log: string, r: nat, reader: Reader, n: nat)
    requires BufferOk(s.buf, log) && ReaderOk(reader, log) && reader.call.Idle? && reader.ppos + n <= |log|
    requires r < |s.readers| && s.readers[r] == if n == 0 then reader else reader.(call := Copying(n, 0))
    ensures Valid(s, CopyAndEnd(r, n))
    ensures Has(Exec(s, CopyAndEnd(r, n)), r,
                Reader(reader.ppos + n, reader.received + log[reader.ppos..reader.ppos + n], Idle))
  {
    if n == 0 {
      assert reader.received + log[reader.ppos..reader.ppos] == reader.received;
    } else {
      CopyingEnds(s, log, r, n);
    }
  }

  function SizeAndCopy(r: nat, n: nat): seq<Label> {
    [Size(r)] + CopyAndEnd(r, n)
  }

  /** What a read of `count` bytes leaves. */
  function AfterRead(reader: Reader, log: string, count: nat): Reader
    requires reader.ppos <= |log|
  {
    var to := reader.ppos + Min(count, |log| - reader.ppos);
    Reader(to, reader.received + log[reader.ppos..to], Idle)
  }

  lemma CheckedReadDelivers(s: State, log: string, r: nat, reader: Reader, count: nat)
    requires BufferOk(s.buf, log) && ReaderOk(reader, log) && reader.call.Idle?
    requires Has(s, r, reader.(call := Checked(count)))
    ensures var n := Min(count, |log| - reader.ppos);
            && Valid(s, SizeAndCopy(r, n))
            && Has(Exec(s, SizeAndCopy(r, n)), r, AfterRead(reader, log, count))
  {
    var n := Min(count, |log| - reader.ppos);
    ReadEnds(Next(s, Size(r)), log, r, reader, n);
    ExecOne(s, Size(r), CopyAndEnd(r, n));
  }

  /**
    A whole read of a log that is not empty, with nothing in between, moves `*ppos` by what it
    asked for or by what is left, whichever is less, and delivers exactly those bytes of the log.
   */
  lemma WholeReadDelivers(s: State, log: string, r: nat, reader: Reader, count: nat, n: nat)
    requires Inv(s) && log == Published(s) && |log| > 0 && Has(s, r, reader) && reader.call.Idle?
    requires n == if reader.ppos <= |log| then Min(count, |log| - reader.ppos) else 0
    ensures reader.ppos <= |log| && Valid(s, [BeginRead(r, count)] + SizeAndCopy(r, n))
    ensures Has(Exec(s, [BeginRead(r, count)] + SizeAndCopy(r, n)), r, AfterRead(reader, log, count))
  {
    assert ReaderOk(reader, log);
    CheckedReadDelivers(Next(s, BeginRead(r, count)), log, r, reader, count);
    ExecOne(s, BeginRead(r, count), SizeAndCopy(r, n));
  }

  /** A read of an empty log returns at once. */
  lemma EmptyRead(s: State, r: nat, count: nat)
    requires Inv(s) && r < |s.readers| && s.readers[r].call.Idle? && |Published(s)| == 0
    ensures Next(s, BeginRead(r, count)) == s
  {
    assert s.readers[r := s.readers[r]] == s.readers;
  }

  // ---------- From the writer to a reader ----------

  function WriterSteps(w: Writer): nat {
    match w
    case Free => 0
    case Formatting(msg, k) => if k < |msg| then 4 + |msg| - k else 4
    case Advancing(_) => 3
    case Publishing(_) => 2
    case Shrinking(_) => 1
  }

  function Writes(n: nat): seq<Label> {
    if n == 0 then [] else [Write] + Writes(n - 1)
  }

  lemma {:induction false} RunOn(s: State, labels: seq<Label>, rest: seq<Label>)
    requires Valid(s, labels) && Valid(Exec(s, labels), rest)
    ensures Valid(s, labels + rest) && Exec(s, labels + rest) == Exec(Exec(s, labels), rest)
    decreases |labels|
  {
    if labels == [] {
      assert labels + rest == rest;
    } else {
      RunOn(Next(s, labels[0]), labels[1..], rest);
      ExecOne(s, labels[0], labels[1..] + rest);
      assert labels + rest == [labels[0]] + (labels[1..] + rest);
    }
  }

  lemma OneStepLess(s: State)
    requires Inv(s) && !s.writer.Free?
    ensures WriterSteps(Next(s, Write).writer) == WriterSteps(s.writer) - 1
  {
  }

  /** A writer whose message fits can always leave the lock, and then its message is published. */
  lemma {:induction false} WriterFinishes(s: State, n: nat)
    requires Inv(s) && n == WriterSteps(s.writer)
    ensures Valid(s, Writes(n))
    ensures var end := Exec(s, Writes(n));
            && Inv(end) && end.writer.Free? && end.locked == s.locked && end.readers == s.readers
            && Published(end) == Concat(s.locked)
    decreases n
  {
    if n == 0 {
    } else {
      WriteKeepsInv(s);
      OneStepLess(s);
      WriterFinishes(Next(s, Write), n - 1);
      ExecOne(s, Write, Writes(n - 1));
    }
  }

  lemma OpenAndRead(s: State, log: string, count: nat)
    requires Inv(s) && log == Published(s) && 0 < |log| <= count
    ensures var r := |s.readers|;
            && Valid(s, [Open] + ([BeginRead(r, count)] + SizeAndCopy(r, |log|)))
            && Has(Exec(s, [Open] + ([BeginRead(r, count)] + SizeAndCopy(r, |log|))), r, Reader(|log|, log, Idle))
  {
    var r := |s.readers|;
    StepKeepsInv(s, Open);
    assert Published(Next(s, Open)) == log && log[0..|log|] == log;
    WholeReadDelivers(Next(s, Open), log, r, Reader(0, "", Idle), count, |log|);
    ExecOne(s, Open, [BeginRead(r, count)] + SizeAndCopy(r, |log|));
  }

  /**
    From any state between two messages a further message that fits can be printed, and whoever
    opens the file after that can read the whole log up to it in one go.
   */
  lemma PrintedIsReadable(s: State, msg: string, count: nat) returns (labels: seq<Label>)
    requires Inv(s) && s.writer.Free? && |Concat(s.locked)| + |msg| < 1024
    requires 0 < |Concat(s.locked)| + |msg| <= count
    ensures Valid(s, [Lock(msg)] + labels)
    ensures var log := Concat(s.locked) + msg;
            Has(Exec(s, [Lock(msg)] + labels), |s.readers|, Reader(|log|, log, Idle))
  {
    var log, next, n := Concat(s.locked) + msg, Next(s, Lock(msg)), WriterSteps(Formatting(msg, 0));
    var r := |s.readers|;
    var reading := [Open] + ([BeginRead(r, count)] + SizeAndCopy(r, |log|));
    StepKeepsInv(s, Lock(msg));
    NextPrints(s, Lock(msg));
    WriterFinishes(next, n);
    OpenAndRead(Exec(next, Writes(n)), log, count);
    RunOn(next, Writes(n), reading);
    labels := Writes(n) + reading;
    ExecOne(s, Lock(msg), labels);
  }

  // ---------- test_printk as it is written ----------

  /** The buffer once the writer has left the lock. */
  function Finish(buf: Buffer, w: Writer): Buffer
    decreases WriterSteps(w)
  {
    if w.Free? then buf else Finish(WriterBuf(buf, w), WriterNext(buf, w))
  }

  lemma FinishTail(buf: Buffer, msg: string)
    ensures Finish(buf, Advancing(msg)) ==
            Buffer(buf.data, buf.cur + |msg|, (buf.bytesInBuf + |msg|) % WORD, (buf.bytesLeft - |msg|) % WORD)
  {
    var b := WriterBuf(buf, Advancing(msg));
    var c := WriterBuf(b, Publishing(msg));
    assert Finish(c, Shrinking(msg)) == WriterBuf(c, Shrinking(msg));
  }

  class PrintBuffer {
    const data: array<char>
    var cur: nat
    var bytesInBuf: Word
    var bytesLeft: Word

    /** `set_up_print_buffer`, when both allocations succeed. */
    constructor ()
      ensures fresh(data) && data.Length == DATA_BUF_SIZE
      ensures Value() == Buffer(data[..], 0, 0, DATA_BUF_SIZE)
    {
      data := new char[DATA_BUF_SIZE];
      cur, bytesInBuf, bytesLeft := 0, 0, DATA_BUF_SIZE;
    }

    ghost function Value(): Buffer
      reads this, data
    {
      Buffer(data[..], cur, bytesInBuf, bytesLeft)
    }

    method Store(i: nat, c: char)
      modifies data
      ensures data[..] == StoreAt(old(data[..]), i, c)
    {
      if i < data.Length {
        data[i] := c;
      }
    }

    /** The library's bounded formatting: it returns the whole length, whatever it could store. */
    method Vsnprintf(msg: string) returns (len: nat)
      modifies data
      ensures len == |msg|
      ensures Finish(Value(), Advancing(msg)) == Finish(old(Value()), Formatting(msg, 0))
    {
      var k := 0;
      while k < Kept(|msg|, bytesLeft)
        invariant k <= Kept(|msg|, bytesLeft)
        invariant Finish(Value(), Formatting(msg, k)) == Finish(old(Value()), Formatting(msg, 0))
      {
        ghost var before := Value();
        Store(cur + k, msg[k]);
        assert Value() == WriterBuf(before, Formatting(msg, k));
        k := k + 1;
      }
      ghost var before := Value();
      if bytesLeft > 0 {
        Store(cur + k, NUL);
      }
      assert Value() == WriterBuf(before, Formatting(msg, k));
      return |msg|;
    }

    /**
      `read_data` of a buffer that no writer is changing. `outside`: a log that has outgrown the
      buffer makes it copy bytes from behind the buffer, which are not part of `chunk`.
     */
    method ReadData(count: nat, ppos: nat) returns (chunk: string, newPpos: nat, outside: bool)
      ensures newPpos == if ppos >= bytesInBuf then ppos
                         else if ppos + count < bytesInBuf then ppos + count else bytesInBuf
      ensures outside <==> newPpos > ppos && newPpos > data.Length
      ensures !outside && newPpos > ppos ==> chunk == data[ppos..newPpos]
      ensures outside && ppos <= data.Length ==> chunk == data[ppos..]
      ensures newPpos == ppos || ppos > data.Length ==> chunk == ""
    {
      if bytesInBuf == 0 || ppos >= bytesInBuf || count == 0 {
        return "", ppos, false;
      }
      var n := if count > bytesInBuf - ppos then bytesInBuf - ppos else count;
      outside := ppos + n > data.Length;
      chunk := if ppos > data.Length then "" else if outside then data[ppos..] else data[ppos..ppos + n];
      newPpos := ppos + n;
    }

    method TestPrintk(msg: string) returns (len: nat)
      modifies this, data
      ensures len == |msg| && Value() == Finish(old(Value()), Formatting(msg, 0))
    {
      len := Vsnprintf(msg);
      FinishTail(Value(), msg);
      cur := cur + len;
      bytesInBuf := (bytesInBuf + len) % WORD;
      bytesLeft := (bytesLeft - len) % WORD;
    }
  }

  predicate Holds(buf: Buffer, log: string) {
    BufferOk(buf, log) && Room(buf, |log|)
  }

  lemma {:induction false} FormattedOk(buf: Buffer, msg: string, k: nat, log: string)
    requires BufferOk(buf, log) && WriterOk(buf, Formatting(msg, k), |log|)
    ensures Holds(Finish(buf, Formatting(msg, k)), log + msg)
    decreases |msg| - k
  {
    FormatStep(buf, msg, k, log);
    var b := WriterBuf(buf, Formatting(msg, k));
    if k < |msg| {
      FormattedOk(b, msg, k + 1, log);
    } else {
      FinishTail(b, msg);
      PublishStep(WriterBuf(b, Advancing(msg)), msg, log);
    }
  }

  lemma {:induction false} FormattedLossy(buf: Buffer, msg: string, k: nat)
    requires |buf.data| == DATA_BUF_SIZE && buf.cur < DATA_BUF_SIZE && buf.bytesLeft == DATA_BUF_SIZE - buf.cur
    requires buf.cur + |msg| >= DATA_BUF_SIZE && k < buf.bytesLeft
    ensures var b := Finish(buf, Formatting(msg, k));
            && |b.data| == DATA_BUF_SIZE && b.data[DATA_BUF_SIZE - 1] == NUL
            && b.bytesInBuf == (buf.bytesInBuf + |msg|) % WORD
    decreases buf.bytesLeft - k
  {
    var b := WriterBuf(buf, Formatting(msg, k));
    if k < buf.bytesLeft - 1 {
      FormattedLossy(b, msg, k + 1);
    } else {
      FinishTail(b, msg);
    }
  }

  /** The bytes of the buffer that the log covers are the log's. */
  predicate Shows(data: string, log: string) {
    forall i :: 0 <= i < |log| && i < |data| ==> data[i] == log[i]
  }

  /**
    One `test_printk` on a buffer that holds a log leaves it holding the longer log exactly when
    that one stays below the buffer's size: otherwise the terminating NUL has taken the place of a
    character that readers are told is there.
   */
  lemma PrintExact(buf: Buffer, log: string, msg: string)
    requires Holds(buf, log) && |msg| < HALF && NUL !in msg
    ensures var b := Finish(buf, Formatting(msg, 0));
            && b.bytesInBuf == |log + msg|
            && (Shows(b.data, log + msg) <==> |log + msg| < 1024)
            && (|log + msg| < DATA_BUF_SIZE ==> Holds(b, log + msg))
  {
    var b := Finish(buf, Formatting(msg, 0));
    if |log + msg| < DATA_BUF_SIZE {
      FormattedOk(buf, msg, 0, log);
      assert forall i :: 0 <= i < |log + msg| ==> b.data[i] == b.data[..|log + msg|][i];
    } else {
      FormattedLossy(buf, msg, 0);
      var last := DATA_BUF_SIZE - 1;
      assert (log + msg)[last] == msg[last - |log|];
      assert b.data[last] != (log + msg)[last];
    }
  }

  /** A message of 1024 characters into an empty log: its last character is lost to the NUL. */
  lemma CutMessage(garbage: string)
    requires |garbage| == DATA_BUF_SIZE
    ensures var msg := seq(DATA_BUF_SIZE, _ => 'x');
            var b := Finish(SetUp(garbage).buf, Formatting(msg, 0));
            && Holds(SetUp(garbage).buf, "")
            && |b.data| == DATA_BUF_SIZE == b.bytesInBuf
            && msg[DATA_BUF_SIZE - 1] == 'x' && b.data[DATA_BUF_SIZE - 1] == NUL
            && !Shows(b.data, msg)
  {
    var msg := seq(DATA_BUF_SIZE, _ => 'x');
    FormattedLossy(SetUp(garbage).buf, msg, 0);
  }
}
