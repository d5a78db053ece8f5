/** The ST7735 command stream and the init table interpreter of `st7735_begin`
    (src/hal/displays/st7735.c). Everything the driver sends over SPI, every
    delay and every reset-pin change is one event. */
module St7735Script {
  import opened Util

  const DelayFlag: bv8 := 0x80

  /** A command byte (DC low), a data byte (DC high), a `sleep_ms`, or a level
      on the reset pin. */
  datatype Event = Cmd(b: bv8) | Data(b: bv8) | Sleep(ms: nat) | ResetPin(high: bool)

  lemma AppendAssoc<T>(a: seq<T>, b: seq<T>, c: seq<T>)
    ensures (a + b) + c == a + (b + c)
  {
  }

  /** A data byte for each byte of a buffer, in order. */
  function DataEvents(bs: seq<bv8>): (ev: seq<Event>)
    ensures |ev| == |bs| && forall k :: 0 <= k < |bs| ==> ev[k] == Data(bs[k])
  {
    if |bs| == 0 then [] else [Data(bs[0])] + DataEvents(bs[1..])
  }

  lemma DataEventsAppend(a: seq<bv8>, b: seq<bv8>)
    ensures DataEvents(a + b) == DataEvents(a) + DataEvents(b)
  {
    assert DataEvents(a + b) == DataEvents(a) + DataEvents(b);
  }

  // ---------------------------------------------------------------- the table format

  /** One entry of the init table: a command, its arguments and an optional
      delay byte. Its encoding is the command, a count byte whose low 7 bits are
      the argument count and whose bit 7 announces the delay, the arguments, and
      the delay byte. */
  datatype Group = Group(cmd: bv8, args: seq<bv8>, delay: Option<bv8>)

  predicate ValidGroups(gs: seq<Group>)
  {
    forall k :: 0 <= k < |gs| ==> |gs[k].args| < 0x80
  }

  /** The count byte's low seven bits and its flag bit, read as numbers. */
  lemma CountBits(c: bv8)
    ensures (c & 0x7F) as int == c as int % 128
    ensures (c & DelayFlag != 0) == (c as int >= 128)
  {
  }

  function CountByte(g: Group): (c: bv8)
    requires |g.args| < 0x80
    ensures (c & 0x7F) as int == |g.args|
    ensures (c & DelayFlag != 0) == g.delay.Some?
  {
    var n := (if g.delay.Some? then 128 else 0) + |g.args|;
    ByteOfValue(n);
    CountBits(ByteOf(n));
    ByteOf(n)
  }

  function EncodeGroup(g: Group): seq<bv8>
    requires |g.args| < 0x80
  {
    [g.cmd, CountByte(g)] + g.args + DelayBytes(g)
  }

  function Encode(gs: seq<Group>): seq<bv8>
    requires ValidGroups(gs)
  {
    if |gs| == 0 then [] else EncodeGroup(gs[0]) + Encode(gs[1..])
  }

  /** A delay byte of 255 means 500 ms. */
  function DelayMs(d: bv8): (ms: nat)
    ensures d == 255 ==> ms == 500
    ensures d != 255 ==> ms == d as nat
  {
    if d == 255 then 500 else d as nat
  }

  /** What a group means: its command, its arguments as data, then its delay. */
  function GroupEvents(g: Group): seq<Event>
  {
    [Cmd(g.cmd)] + DataEvents(g.args) + SleepEvents(g)
  }

  function Expected(gs: seq<Group>): seq<Event>
  {
    if |gs| == 0 then [] else GroupEvents(gs[0]) + Expected(gs[1..])
  }

  // ---------------------------------------------------------------- the interpreter

  /** The interpreter's locals: `argcount`, `cmd_state == 1` and `delay != 0`. */
  datatype ScriptState = ScriptState(argCount: nat, expectCommand: bool, delay: bool)

  const Start := ScriptState(0, true, false)

  /** One byte of the interpreter loop. */
  function Step(st: ScriptState, c: bv8): (ScriptState, seq<Event>)
  {
    if st.argCount == 0 then
      if st.delay then (st.(delay := false), [Sleep(DelayMs(c))])
      else if st.expectCommand then (st.(expectCommand := false), [Cmd(c)])
      else (ScriptState((c & 0x7F) as nat, true, c & DelayFlag != 0), [])
    else (st.(argCount := st.argCount - 1), [Data(c)])
  }

  /** The events of the interpreter loop over `s` from state `st`. */
  function RunFrom(st: ScriptState, s: seq<bv8>): seq<Event>
    decreases |s|
  {
    if |s| == 0 then [] else Step(st, s[0]).1 + RunFrom(Step(st, s[0]).0, s[1..])
  }

  /** While arguments are pending every byte is a data byte. */
  lemma {:induction false} RunArgs(args: seq<bv8>, d: bool, rest: seq<bv8>)
    ensures RunFrom(ScriptState(|args|, true, d), args + rest)
         == DataEvents(args) + RunFrom(ScriptState(0, true, d), rest)
  {
    if |args| > 0 {
      var st := ScriptState(|args|, true, d);
      assert (args + rest)[0] == args[0];
      assert (args + rest)[1..] == args[1..] + rest;
      assert Step(st, args[0]) == (ScriptState(|args[1..]|, true, d), [Data(args[0])]);
      assert RunFrom(st, args + rest) == [Data(args[0])] + RunFrom(ScriptState(|args[1..]|, true, d), args[1..] + rest);
      RunArgs(args[1..], d, rest);
      assert DataEvents(args) == [Data(args[0])] + DataEvents(args[1..]);
      AppendAssoc([Data(args[0])], DataEvents(args[1..]), RunFrom(ScriptState(0, true, d), rest));
    } else {
      assert args + rest == rest;
    }
  }

  /** The delay byte of a group, if it has one. */
  function DelayBytes(g: Group): seq<bv8>
  {
    if g.delay.Some? then [g.delay.value] else []
  }

  /** The sleep a group ends with, if it has one. */
  function SleepEvents(g: Group): seq<Event>
  {
    if g.delay.Some? then [Sleep(DelayMs(g.delay.value))] else []
  }

  /** A command byte followed by a count byte opens a group. */
  lemma RunHeader(cmd: bv8, count: bv8, more: seq<bv8>)
    ensures RunFrom(Start, [cmd, count] + more)
         == [Cmd(cmd)] + RunFrom(ScriptState((count & 0x7F) as nat, true, count & DelayFlag != 0), more)
  {
    var s := [cmd, count] + more;
    assert s[0] == cmd && s[1..] == [count] + more;
    assert s[1..][0] == count && s[1..][1..] == more;
  }

  /** After the arguments come the delay byte, if announced, and the next group. */
  lemma RunDelay(g: Group, rest: seq<bv8>)
    ensures RunFrom(ScriptState(0, true, g.delay.Some?), DelayBytes(g) + rest) == SleepEvents(g) + RunFrom(Start, rest)
  {
    if g.delay.Some? {
      assert (DelayBytes(g) + rest)[0] == g.delay.value;
      assert (DelayBytes(g) + rest)[1..] == rest;
    } else {
      assert DelayBytes(g) + rest == rest;
    }
  }

  /** The command and count bytes of a group open it with its argument count
      and its delay flag. */
  lemma RunGroupHeader(g: Group, more: seq<bv8>)
    requires |g.args| < 0x80
    ensures RunFrom(Start, [g.cmd, CountByte(g)] + more)
         == [Cmd(g.cmd)] + RunFrom(ScriptState(|g.args|, true, g.delay.Some?), more)
  {
    var count := CountByte(g);
    RunHeader(g.cmd, count, more);
    assert ScriptState((count & 0x7F) as nat, true, count & DelayFlag != 0) == ScriptState(|g.args|, true, g.delay.Some?);
  }

  /** The interpreter turns one encoded group back into the group's events and
      returns to the start state. */
  lemma RunGroup(g: Group, rest: seq<bv8>)
    requires |g.args| < 0x80
    ensures RunFrom(Start, EncodeGroup(g) + rest) == GroupEvents(g) + RunFrom(Start, rest)
  {
    var d := g.delay.Some?;
    var more := DelayBytes(g) + rest;
    var after := RunFrom(Start, rest);
    calc {
      RunFrom(Start, EncodeGroup(g) + rest);
      { assert EncodeGroup(g) + rest == [g.cmd, CountByte(g)] + (g.args + more); }
      RunFrom(Start, [g.cmd, CountByte(g)] + (g.args + more));
      { RunGroupHeader(g, g.args + more); }
      [Cmd(g.cmd)] + RunFrom(ScriptState(|g.args|, true, d), g.args + more);
      { RunArgs(g.args, d, more); RunDelay(g, rest); }
      [Cmd(g.cmd)] + (DataEvents(g.args) + (SleepEvents(g) + after));
      { AppendAssoc(DataEvents(g.args), SleepEvents(g), after);
        AppendAssoc([Cmd(g.cmd)], DataEvents(g.args), SleepEvents(g) + after);
        AppendAssoc([Cmd(g.cmd)] + DataEvents(g.args), SleepEvents(g), after); }
      GroupEvents(g) + after;
    }
  }

  /** Interpreting an encoded table yields exactly the events of its groups. */
  lemma {:induction false} RunEncode(gs: seq<Group>, rest: seq<bv8>)
    requires ValidGroups(gs)
    ensures RunFrom(Start, Encode(gs) + rest) == Expected(gs) + RunFrom(Start, rest)
  {
    if |gs| > 0 {
      AppendAssoc(EncodeGroup(gs[0]), Encode(gs[1..]), rest);
      RunGroup(gs[0], Encode(gs[1..]) + rest);
      RunEncode(gs[1..], rest);
      AppendAssoc(GroupEvents(gs[0]), Expected(gs[1..]), RunFrom(Start, rest));
    } else {
      assert Encode(gs) + rest == rest;
    }
  }

  /** One pass of the init loop of `st7735_begin`: the locals after byte `c`
      and what was sent or slept. */
  method InterpretByte(argcount: nat, cmdState: int, delay: bv8, c: bv8)
      returns (argcount': nat, cmdState': int, delay': bv8, sent: seq<Event>)
    requires cmdState == 0 || cmdState == 1
    ensures cmdState' == 0 || cmdState' == 1
    ensures (ScriptState(argcount', cmdState' == 1, delay' != 0), sent)
         == Step(ScriptState(argcount, cmdState == 1, delay != 0), c)
  {
    argcount', cmdState', delay', sent := argcount, cmdState, delay, [];
    if argcount == 0 {
      if delay != 0 {
        var delayMs: nat := c as nat;
        if delayMs == 255 {
          delayMs := 500;
        }
        sent := [Sleep(delayMs)];
        delay' := 0;
      } else if cmdState == 1 {
        sent := [Cmd(c)];
        cmdState' := 0;
      } else {
        argcount' := (c & 0x7F) as nat;
        delay' := c & DelayFlag;
        cmdState' := 1;
      }
    } else {
      sent := [Data(c)];
      argcount' := argcount - 1;
    }
  }

  /** The init loop of `st7735_begin` over any table. */
  method Interpret(script: seq<bv8>) returns (ev: seq<Event>)
    ensures ev == RunFrom(Start, script)
  {
    var argcount: nat := 0;
    var cmdState := 1;
    var delay: bv8 := 0;
    ev := [];
    for i := 0 to |script|
      invariant cmdState == 0 || cmdState == 1
      invariant ev + RunFrom(ScriptState(argcount, cmdState == 1, delay != 0), script[i..]) == RunFrom(Start, script)
    {
      ghost var st := ScriptState(argcount, cmdState == 1, delay != 0);
      ghost var before := ev;
      var sent;
      argcount, cmdState, delay, sent := InterpretByte(argcount, cmdState, delay, script[i]);
      ev := ev + sent;
      assert script[i..][1..] == script[i + 1..];
      AppendAssoc(before, sent, RunFrom(Step(st, script[i]).0, script[i + 1..]));
    }
  }

  /** The bytes of the init table, one row per group as the table lays them out. */
  const InitRows: seq<seq<bv8>> := [
    [0x01, 0x80, 150],
    [0x11, 0x80, 255],
    [0xB1, 3, 0x01, 0x2C, 0x2D],
    [0xB2, 3, 0x01, 0x2C, 0x2D],
    [0xB3, 6, 0x01, 0x2C, 0x2D, 0x01, 0x2C, 0x2D],
    [0xB4, 1, 0x07],
    [0xC0, 3, 0xA2, 0x02, 0x84],
    [0xC1, 1, 0xC5],
    [0xC2, 2, 0x0A, 0x00],
    [0xC3, 2, 0x8A, 0x2A],
    [0xC4, 2, 0x8A, 0xEE],
    [0xC5, 1, 0x0E],
    [0x20, 0],
    [0x36, 1, 0xC8],
    [0x3A, 1, 0x05],
    [0x2A, 4, 0x00, 0x00, 0x00, 0x7F],
    [0x2B, 4, 0x00, 0x00, 0x00, 0x9F],
    [0xE0, 16, 0x02, 0x1c, 0x07, 0x12, 0x37, 0x32, 0x29, 0x2d, 0x29, 0x25, 0x2B, 0x39, 0x00, 0x01, 0x03, 0x10],
    [0xE1, 16, 0x03, 0x1d, 0x07, 0x06, 0x2E, 0x2C, 0x29, 0x2D, 0x2E, 0x2E, 0x37, 0x3F, 0x00, 0x00, 0x02, 0x10],
    [0x13, 0x80, 10],
    [0x29, 0x80, 100]]

  function Flatten(rows: seq<seq<bv8>>): seq<bv8>
  {
    if |rows| == 0 then [] else rows[0] + Flatten(rows[1..])
  }

  /** `init_cmds`. */
  const InitScript: seq<bv8> := Flatten(InitRows)

  const InitGroups: seq<Group> := [
    Group(0x01, [], Some(150)),
    Group(0x11, [], Some(255)),
    Group(0xB1, [0x01, 0x2C, 0x2D], None),
    Group(0xB2, [0x01, 0x2C, 0x2D], None),
    Group(0xB3, [0x01, 0x2C, 0x2D, 0x01, 0x2C, 0x2D], None),
    Group(0xB4, [0x07], None),
    Group(0xC0, [0xA2, 0x02, 0x84], None),
    Group(0xC1, [0xC5], None),
    Group(0xC2, [0x0A, 0x00], None),
    Group(0xC3, [0x8A, 0x2A], None),
    Group(0xC4, [0x8A, 0xEE], None),
    Group(0xC5, [0x0E], None),
    Group(0x20, [], None),
    Group(0x36, [0xC8], None),
    Group(0x3A, [0x05], None),
    Group(0x2A, [0x00, 0x00, 0x00, 0x7F], None),
    Group(0x2B, [0x00, 0x00, 0x00, 0x9F], None),
    Group(0xE0, [0x02, 0x1c, 0x07, 0x12, 0x37, 0x32, 0x29, 0x2d, 0x29, 0x25, 0x2B, 0x39, 0x00, 0x01, 0x03, 0x10], None),
    Group(0xE1, [0x03, 0x1d, 0x07, 0x06, 0x2E, 0x2C, 0x29, 0x2D, 0x2E, 0x2E, 0x37, 0x3F, 0x00, 0x00, 0x02, 0x10], None),
    Group(0x13, [], Some(10)),
    Group(0x29, [], Some(100))]

  /** Each row of the table encodes its group (stated over ranges of rows). */
  lemma InitRowsEncode0(k: nat)
    requires 0 <= k < 4
    ensures |InitGroups[k].args| < 0x80 && EncodeGroup(InitGroups[k]) == InitRows[k]
  {
    if k == 0 {
      assert InitGroups[0] == Group(0x01, [], Some(150));
      assert InitRows[0] == [0x01, 0x80, 150];
    } else if k == 1 {
      assert InitGroups[1] == Group(0x11, [], Some(255));
      assert InitRows[1] == [0x11, 0x80, 255];
    } else if k == 2 {
      assert InitGroups[2] == Group(0xB1, [0x01, 0x2C, 0x2D], None);
      assert InitRows[2] == [0xB1, 3, 0x01, 0x2C, 0x2D];
    } else {
      assert InitGroups[3] == Group(0xB2, [0x01, 0x2C, 0x2D], None);
      assert InitRows[3] == [0xB2, 3, 0x01, 0x2C, 0x2D];
    }
  }

  lemma InitRowsEncode1(k: nat)
    requires 4 <= k < 8
    ensures |InitGroups[k].args| < 0x80 && EncodeGroup(InitGroups[k]) == InitRows[k]
  {
    if k == 4 {
      assert InitGroups[4] == Group(0xB3, [0x01, 0x2C, 0x2D, 0x01, 0x2C, 0x2D], None);
      assert InitRows[4] == [0xB3, 6, 0x01, 0x2C, 0x2D, 0x01, 0x2C, 0x2D];
    } else if k == 5 {
      assert InitGroups[5] == Group(0xB4, [0x07], None);
      assert InitRows[5] == [0xB4, 1, 0x07];
    } else if k == 6 {
      assert InitGroups[6] == Group(0xC0, [0xA2, 0x02, 0x84], None);
      assert InitRows[6] == [0xC0, 3, 0xA2, 0x02, 0x84];
    } else {
      assert InitGroups[7] == Group(0xC1, [0xC5], None);
      assert InitRows[7] == [0xC1, 1, 0xC5];
    }
  }

  lemma InitRowsEncode2(k: nat)
    requires 8 <= k < 12
    ensures |InitGroups[k].args| < 0x80 && EncodeGroup(InitGroups[k]) == InitRows[k]
  {
    if k == 8 {
      assert InitGroups[8] == Group(0xC2, [0x0A, 0x00], None);
      assert InitRows[8] == [0xC2, 2, 0x0A, 0x00];
    } else if k == 9 {
      assert InitGroups[9] == Group(0xC3, [0x8A, 0x2A], None);
      assert InitRows[9] == [0xC3, 2, 0x8A, 0x2A];
    } else if k == 10 {
      assert InitGroups[10] == Group(0xC4, [0x8A, 0xEE], None);
      assert InitRows[10] == [0xC4, 2, 0x8A, 0xEE];
    } else {
      assert InitGroups[11] == Group(0xC5, [0x0E], None);
      assert InitRows[11] == [0xC5, 1, 0x0E];
    }
  }

  lemma InitRowsEncode3(k: nat)
    requires 12 <= k < 17
    ensures |InitGroups[k].args| < 0x80 && EncodeGroup(InitGroups[k]) == InitRows[k]
  {
    if k == 12 {
      assert InitGroups[12] == Group(0x20, [], None);
      assert InitRows[12] == [0x20, 0];
    } else if k == 13 {
      assert InitGroups[13] == Group(0x36, [0xC8], None);
      assert InitRows[13] == [0x36, 1, 0xC8];
    } else if k == 14 {
      assert InitGroups[14] == Group(0x3A, [0x05], None);
      assert InitRows[14] == [0x3A, 1, 0x05];
    } else if k == 15 {
      assert InitGroups[15] == Group(0x2A, [0x00, 0x00, 0x00, 0x7F], None);
      assert InitRows[15] == [0x2A, 4, 0x00, 0x00, 0x00, 0x7F];
    } else {
      assert InitGroups[16] == Group(0x2B, [0x00, 0x00, 0x00, 0x9F], None);
      assert InitRows[16] == [0x2B, 4, 0x00, 0x00, 0x00, 0x9F];
    }
  }

  lemma InitRowsEncode4(k: nat)
    requires 17 <= k < 18
    ensures |InitGroups[k].args| < 0x80 && EncodeGroup(InitGroups[k]) == InitRows[k]
  {
    assert InitGroups[17] == Group(0xE0, [0x02, 0x1c, 0x07, 0x12, 0x37, 0x32, 0x29, 0x2d, 0x29, 0x25, 0x2B, 0x39, 0x00, 0x01, 0x03, 0x10], None);
    assert InitRows[17] == [0xE0, 16, 0x02, 0x1c, 0x07, 0x12, 0x37, 0x32, 0x29, 0x2d, 0x29, 0x25, 0x2B, 0x39, 0x00, 0x01, 0x03, 0x10];
  }

  lemma InitRowsEncode5(k: nat)
    requires 18 <= k < 19
    ensures |InitGroups[k].args| < 0x80 && EncodeGroup(InitGroups[k]) == InitRows[k]
  {
    assert InitGroups[18] == Group(0xE1, [0x03, 0x1d, 0x07, 0x06, 0x2E, 0x2C, 0x29, 0x2D, 0x2E, 0x2E, 0x37, 0x3F, 0x00, 0x00, 0x02, 0x10], None);
    assert InitRows[18] == [0xE1, 16, 0x03, 0x1d, 0x07, 0x06, 0x2E, 0x2C, 0x29, 0x2D, 0x2E, 0x2E, 0x37, 0x3F, 0x00, 0x00, 0x02, 0x10];
  }

  lemma InitRowsEncode6(k: nat)
    requires 19 <= k < 21
    ensures |InitGroups[k].args| < 0x80 && EncodeGroup(InitGroups[k]) == InitRows[k]
  {
    if k == 19 {
      assert InitGroups[19] == Group(0x13, [], Some(10));
      assert InitRows[19] == [0x13, 0x80, 10];
    } else {
      assert InitGroups[20] == Group(0x29, [], Some(100));
      assert InitRows[20] == [0x29, 0x80, 100];
    }
  }

  /** The init table of `st7735_begin` is the encoding of its 21 groups, and
      running it gives their events. */
  lemma InitScriptEncodes()
    ensures ValidGroups(InitGroups)
    ensures Encode(InitGroups) == InitScript
    ensures RunFrom(Start, InitScript) == Expected(InitGroups)
  {
    InitTableEncodes();
    RunEncoded(InitGroups, InitScript);
  }

  /** A script that encodes a list of groups runs to the groups' events. */
  lemma RunEncoded(gs: seq<Group>, script: seq<bv8>)
    requires ValidGroups(gs) && Encode(gs) == script
    ensures RunFrom(Start, script) == Expected(gs)
  {
    RunEncode(gs, []);
    assert script + [] == script;
    assert Expected(gs) + [] == Expected(gs);
  }

  lemma InitTableEncodes()
    ensures ValidGroups(InitGroups)
    ensures Encode(InitGroups) == InitScript
  {
    forall k | 0 <= k < |InitGroups|
      ensures |InitGroups[k].args| < 0x80 && EncodeGroup(InitGroups[k]) == InitRows[k]
    {
      if k < 4 { InitRowsEncode0(k); } else if k < 8 { InitRowsEncode1(k); } else if k < 12 { InitRowsEncode2(k); } else if k < 17 { InitRowsEncode3(k); } else if k < 18 { InitRowsEncode4(k); } else if k < 19 { InitRowsEncode5(k); } else { InitRowsEncode6(k); }
    }
    EncodeRows(InitGroups, InitRows);
  }

  lemma {:induction false} EncodeRows(gs: seq<Group>, rows: seq<seq<bv8>>)
    requires ValidGroups(gs) && |gs| == |rows|
    requires forall k :: 0 <= k < |gs| ==> EncodeGroup(gs[k]) == rows[k]
    ensures Encode(gs) == Flatten(rows)
  {
    if |gs| > 0 {
      EncodeRows(gs[1..], rows[1..]);
    }
  }
}
