/** The outbound half of the connection (`PioneerDevice.telnet_command`):
    a command is written as ASCII followed by a carriage return, but only
    while the connection flag is up and a writer exists. Whether the
    transport refuses a write is the environment's answer to that one write,
    so it is a parameter of each call. */
module Telnet {
  import opened Builtins

  /** `hasConnection`, whether `writer` is set, and the bytes the writer has
      accepted. */
  datatype Conn = Conn(connected: bool, hasWriter: bool, sent: seq<Byte>)

  const CarriageReturn: Byte := 13

  predicate AllAscii(commands: seq<string>)
  {
    forall i :: 0 <= i < |commands| ==> IsAscii(commands[i])
  }

  /** No write among the first `n` of a run is refused. */
  predicate Accepted(refused: nat -> bool, n: nat)
  {
    forall i :: 0 <= i < n ==> !refused(i)
  }

  /** The bytes one command puts on the wire. */
  function Frame(command: string): (f: seq<Byte>)
    requires IsAscii(command)
    ensures |f| == |command| + 1 && f[|command|] == CarriageReturn
    ensures forall k :: 0 <= k < |command| ==> f[k] as int == command[k] as int
  {
    AsciiBytes(command) + [CarriageReturn]
  }

  /** The bytes a run of commands puts on the wire, one frame after another. */
  function Frames(commands: seq<string>): seq<Byte>
    requires AllAscii(commands)
  {
    if commands == [] then []
    else Frames(commands[..|commands| - 1]) + Frame(commands[|commands| - 1])
  }

  /** `telnet_command(command)`, where `refused` says whether the transport
      raises on this write. Disconnected: nothing happens. Connected without
      a writer: the flag drops. Connected with a writer: a command that is
      not ASCII, or a refused write, drops the flag and writes nothing;
      otherwise the frame is appended. */
  function Send(c: Conn, command: string, refused: bool): (r: Conn)
    ensures r.hasWriter == c.hasWriter
    ensures r.connected <==> c.connected && c.hasWriter && IsAscii(command) && !refused
    ensures r.sent == if r.connected then c.sent + Frame(command) else c.sent
  {
    if !c.connected then c
    else if !c.hasWriter then c.(connected := false)
    else match EncodeAscii(command)
      case None => c.(connected := false)
      case Some(bytes) =>
        if refused then c.(connected := false) else c.(sent := c.sent + bytes + [CarriageReturn])
  }

  /** Several `telnet_command` calls in a row; `refused(i)` is the transport's
      answer to the write of command `i`. */
  function SendAll(c: Conn, commands: seq<string>, refused: nat -> bool): Conn
  {
    if commands == [] then c
    else
      var n := |commands| - 1;
      Send(SendAll(c, commands[..n], refused), commands[n], refused(n))
  }

  // ---------------------------------------------------------------------
  // Lemmas

  lemma SendAllSnoc(c: Conn, commands: seq<string>, command: string, refused: nat -> bool)
    ensures SendAll(c, commands + [command], refused)
         == Send(SendAll(c, commands, refused), command, refused(|commands|))
  {
    assert (commands + [command])[..|commands|] == commands;
  }

  /** Four `telnet_command` calls in a row, spelled out. */
  lemma SendFour(c: Conn, a: string, b: string, d: string, e: string, refused: nat -> bool)
    ensures SendAll(c, [a, b, d, e], refused)
         == Send(Send(Send(Send(c, a, refused(0)), b, refused(1)), d, refused(2)), e, refused(3))
  {
    SendAllSnoc(c, [], a, refused);
    SendAllSnoc(c, [a], b, refused);
    SendAllSnoc(c, [a, b], d, refused);
    SendAllSnoc(c, [a, b, d], e, refused);
    assert [] + [a] == [a];
    assert [a] + [b] == [a, b];
    assert [a, b] + [d] == [a, b, d];
    assert [a, b, d] + [e] == [a, b, d, e];
  }

  /** Four commands on a link that stays up: their frames, one after another. */
  lemma SendFourWhileUp(c: Conn, a: string, b: string, d: string, e: string, refused: nat -> bool)
    requires c.connected && c.hasWriter && Accepted(refused, 4)
    requires IsAscii(a) && IsAscii(b) && IsAscii(d) && IsAscii(e)
    ensures SendAll(c, [a, b, d, e], refused)
         == c.(sent := c.sent + (Frame(a) + Frame(b) + Frame(d) + Frame(e)))
  {
    SendFour(c, a, b, d, e, refused);
    assert !refused(0) && !refused(1) && !refused(2) && !refused(3);
    var fa, fb, fd, fe := Frame(a), Frame(b), Frame(d), Frame(e);
    var c1 := Send(c, a, refused(0));
    assert c1 == c.(sent := c.sent + fa);
    var c2 := Send(c1, b, refused(1));
    assert c2 == c.(sent := c.sent + fa + fb);
    var c3 := Send(c2, d, refused(2));
    assert c3 == c.(sent := c.sent + fa + fb + fd);
    var c4 := Send(c3, e, refused(3));
    assert c4 == c.(sent := c.sent + fa + fb + fd + fe);
    ConcatFive(c.sent, fa, fb, fd, fe);
  }

  // Helper for the solver: regrouping a concatenation.
  lemma ConcatFive(s: seq<Byte>, a: seq<Byte>, b: seq<Byte>, d: seq<Byte>, e: seq<Byte>)
    ensures s + a + b + d + e == s + (a + b + d + e)
  {
  }

  /** The frame of a command of two ASCII characters. */
  lemma FrameOfTwo(x: char, y: char)
    requires x as int < 128 && y as int < 128
    ensures IsAscii([x, y])
    ensures Frame([x, y]) == [x as int as Byte, y as int as Byte, CarriageReturn]
  {
  }

  /** The frame of a command of three ASCII characters. */
  lemma FrameOfThree(x: char, y: char, z: char)
    requires x as int < 128 && y as int < 128 && z as int < 128
    ensures IsAscii([x, y, z])
    ensures Frame([x, y, z]) == [x as int as Byte, y as int as Byte, z as int as Byte, CarriageReturn]
  {
  }

  /** While the link stays up, every command's frame reaches the wire, in order. */
  lemma {:induction false} SendAllWhileUp(c: Conn, commands: seq<string>, refused: nat -> bool)
    requires c.connected && c.hasWriter && AllAscii(commands) && Accepted(refused, |commands|)
    ensures SendAll(c, commands, refused) == c.(sent := c.sent + Frames(commands))
  {
    if commands != [] {
      var n := |commands| - 1;
      var init, last := commands[..n], commands[n];
      assert AllAscii(init);
      SendAllWhileUp(c, init, refused);
      var mid := c.(sent := c.sent + Frames(init));
      assert !refused(n);
      assert Send(mid, last, refused(n)) == c.(sent := (c.sent + Frames(init)) + Frame(last));
      assert Frames(commands) == Frames(init) + Frame(last);
      ConcatThree(c.sent, Frames(init), Frame(last));
    }
  }

  // Helper for the solver: regrouping a concatenation.
  lemma ConcatThree(s: seq<Byte>, a: seq<Byte>, b: seq<Byte>)
    ensures (s + a) + b == s + (a + b)
  {
  }

  /** Once the flag is down, no command writes anything or raises it again. */
  lemma {:induction false} SendAllWhileDown(c: Conn, commands: seq<string>, refused: nat -> bool)
    requires !c.connected
    ensures SendAll(c, commands, refused) == c
  {
    if commands != [] {
      SendAllWhileDown(c, commands[..|commands| - 1], refused);
    }
  }

  /** The link is still up after a run exactly when it was up with a
      writer, every command is ASCII, and no write was refused. */
  lemma {:induction false} SendAllStaysUp(c: Conn, commands: seq<string>, refused: nat -> bool)
    ensures SendAll(c, commands, refused).hasWriter == c.hasWriter
    ensures SendAll(c, commands, refused).connected <==>
      c.connected && (commands != [] ==> c.hasWriter) && AllAscii(commands) && Accepted(refused, |commands|)
  {
    if commands != [] {
      var n := |commands| - 1;
      var init := commands[..n];
      SendAllStaysUp(c, init, refused);
      AllAsciiSplit(commands);
      AcceptedSplit(refused, n);
      assert SendAll(c, commands, refused) == Send(SendAll(c, init, refused), commands[n], refused(n));
    }
  }

  lemma AllAsciiSplit(commands: seq<string>)
    requires commands != []
    ensures var n := |commands| - 1;
      AllAscii(commands) <==> AllAscii(commands[..n]) && IsAscii(commands[n])
  {
    var n := |commands| - 1;
    assert forall i :: 0 <= i < n ==> commands[..n][i] == commands[i];
  }

  lemma AcceptedSplit(refused: nat -> bool, n: nat)
    ensures Accepted(refused, n + 1) <==> Accepted(refused, n) && !refused(n)
  {
  }

  lemma FramesSnoc(commands: seq<string>, command: string)
    requires AllAscii(commands) && IsAscii(command)
    ensures AllAscii(commands + [command])
    ensures Frames(commands + [command]) == Frames(commands) + Frame(command)
  {
    assert (commands + [command])[..|commands|] == commands;
  }

  /** Whatever the transport answers, the wire receives whole frames of the
      first `k` commands and nothing else; those `k` writes were all
      accepted; command `k`, if there is one, is the one that found the link
      down, found no writer, was not ASCII or was refused; and the link is
      still up at the end only if all commands went out. */
  lemma {:induction false} SendAllWritesPrefix(c: Conn, commands: seq<string>, refused: nat -> bool)
    returns (k: nat)
    ensures k <= |commands| && AllAscii(commands[..k]) && Accepted(refused, k)
    ensures SendAll(c, commands, refused).sent == c.sent + Frames(commands[..k])
    ensures SendAll(c, commands, refused).connected ==> c.connected && k == |commands|
    ensures k == |commands| && commands != [] ==> SendAll(c, commands, refused).connected
    ensures k < |commands| ==> !c.connected || !c.hasWriter || !IsAscii(commands[k]) || refused(k)
  {
    if commands == [] {
      k := 0;
      assert commands[..0] == [];
    } else {
      var n := |commands| - 1;
      var init, last := commands[..n], commands[n];
      assert init + [last] == commands;
      k := SendAllWritesPrefix(c, init, refused);
      assert init[..k] == commands[..k];
      var mid := SendAll(c, init, refused);
      SendAllStaysUp(c, init, refused);
      assert SendAll(c, commands, refused) == Send(mid, last, refused(n));
      if Send(mid, last, refused(n)).connected {
        assert commands[..k] == init;
        AllAsciiSplit(commands);
        AcceptedSplit(refused, n);
        FramesSnoc(init, last);
        ConcatThree(c.sent, Frames(init), Frame(last));
        k := k + 1;
        assert commands[..k] == commands;
      } else if k == n {
        assert commands[k] == last;
      } else {
        assert commands[k] == init[k];
      }
    }
  }
}
