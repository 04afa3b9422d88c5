/** The command text the receiver's operations send, before `telnet_command`
    adds the carriage return: fixed commands, source selection and query,
    and the volume ramp that `set_volume_level` builds out of single steps. */
module Commands {
  import opened Builtins
  import opened Protocol
  import opened Telnet

  const PowerOff := "PF"
  const VolumeUp := "VU"
  const VolumeDown := "VD"

  /** What `turn_on` sends: an empty command, a newline before the power-on
      command, another empty command, then the power query. */
  const TurnOnCommands := ["", "\nPO", "", "?P"]

  /** The status queries sent right after a connection is opened: power,
      volume, mute, input source. */
  const BaselineQueries := ["?P", "?V", "?M", "?F"]

  /** `mute_volume`'s command: `MO` mutes, `MF` unmutes. */
  function MuteCommand(mute: bool): string
  {
    if mute then "MO" else "MF"
  }

  /** `f"?RGB{str(num).zfill(2)}"`: the index the device is asked about,
      padded to two characters, reads back as that index; for 0..99 it is
      exactly two digits. */
  function QueryCommand(num: int): (c: string)
    ensures |c| >= 6 && c[..4] == "?RGB"
    ensures ParseInt(c[4..]) == Ok(num)
    ensures 0 <= num < 100 ==> |c| == 6 && IsDigit(c[4]) && IsDigit(c[5])
  {
    ParseIntZFill(num, 2);
    TwoDigitIndex(num);
    var c := "?RGB" + ZFill(Str(num), 2);
    assert c[4..] == ZFill(Str(num), 2);
    c
  }

  lemma TwoDigitIndex(num: int)
    ensures 0 <= num < 100 ==>
      var z := ZFill(Str(num), 2); |z| == 2 && IsDigit(z[0]) && IsDigit(z[1])
  {
    if 10 <= num < 100 {
      assert Decimal(num) == Decimal(num / 10) + [DigitChar(num % 10)];
    }
  }

  /** `self._source_name_to_number.get(source) + "FN"`: the source's number
      followed by `FN`; for an unknown name `get` gives None and adding a
      string to it raises TypeError. */
  function SelectCommand(nameToNumber: map<string, string>, source: string): (r: Result<string, PyError>)
    ensures r.Ok? <==> source in nameToNumber
    ensures r.Ok? ==> r.value == nameToNumber[source] + "FN"
    ensures r.Err? ==> r.error == TypeError
  {
    match Get(nameToNumber, source)
    case None => Err(TypeError)
    case Some(number) => Ok(number + "FN")
  }

  /** `abs(int((current - goal) / 2))`: the step count, with the division's
      fraction truncated toward zero. */
  function RampSteps(current: int, goal: int): (steps: nat)
    ensures 2 * steps <= Abs(current - goal) < 2 * steps + 2
  {
    Abs(TruncHalf(current - goal))
  }

  function Abs(x: int): nat { if x < 0 then -x else x }

  /** `int(d / 2)`: halving with the fraction dropped toward zero. */
  function TruncHalf(d: int): int
  {
    if d >= 0 then d / 2 else -((-d) / 2)
  }

  /** The commands `set_volume_level` sends: `VU` when the current level
      is below the goal, otherwise `VD`, once per step. */
  function RampCommands(current: int, goal: int): (commands: seq<string>)
    ensures |commands| == RampSteps(current, goal)
    ensures forall i :: 0 <= i < |commands| ==>
      commands[i] == if current < goal then VolumeUp else VolumeDown
    ensures commands == [] <==> Abs(current - goal) < 2
  {
    seq(RampSteps(current, goal), _ => if current - goal < 0 then VolumeUp else VolumeDown)
  }

  // ---------------------------------------------------------------------
  // Lemmas

  /** Taking two units per step, the ramp never passes the goal and stops
      less than one step short of it. */
  lemma RampLandsNearGoal(current: int, goal: int)
    ensures var n := |RampCommands(current, goal)|;
      if current < goal then current + 2 * n <= goal < current + 2 * n + 2
      else current - 2 * n - 2 < goal <= current - 2 * n
  {
  }

  /** From raw volume 50 to raw goal 30 the ramp is ten volume-down steps. */
  lemma RampExample()
    ensures RampCommands(50, 30) == seq(10, _ => VolumeDown)
  {
  }

  /** A source select followed by the device's `FN` report of the same
      number selects that source, provided the maps are exact inverses and
      the number is two characters long. */
  lemma SelectThenReport(st: DeviceState, source: string)
    requires Inverse(st.nameToNumber, st.numberToName)
    requires source in st.nameToNumber && |st.nameToNumber[source]| == 2
    ensures SelectCommand(st.nameToNumber, source).Ok?
    ensures var number := SelectCommand(st.nameToNumber, source).value[..2];
      ParseLine(st, "FN" + number + "\r\n") == Ok(st.(selectedSource := Some(source)))
  {
    var number := st.nameToNumber[source];
    var line := "FN" + number + "\r\n";
    assert (number + "FN")[..2] == number;
    PrefixChars(line);
    assert Slice(line, 2, 4) == number;
  }

  /** On a link that stays up, `turn_on` puts CR, LF 'P' 'O' CR, CR and
      '?' 'P' CR on the wire. */
  lemma TurnOnWire(c: Conn, refused: nat -> bool)
    requires c.connected && c.hasWriter && Accepted(refused, 4)
    ensures SendAll(c, TurnOnCommands, refused).sent == c.sent + [13, 10, 80, 79, 13, 13, 63, 80, 13]
  {
    FrameOfTwo('?', 'P');
    FrameOfThree('\n', 'P', 'O');
    assert IsAscii("") && Frame("") == [13];
    SendFourWhileUp(c, "", "\nPO", "", "?P", refused);
    TurnOnBytes();
  }

  // Helper for the solver: joining the four frame literals of `turn_on`.
  lemma TurnOnBytes()
    ensures var frames: seq<Byte> := [13] + [10, 80, 79, 13] + [13] + [63, 80, 13];
      frames == [13, 10, 80, 79, 13, 13, 63, 80, 13]
  {
  }

  /** Right after the connection opens, the four status queries reach the
      wire as '?' 'P' CR, '?' 'V' CR, '?' 'M' CR, '?' 'F' CR when the
      transport accepts them; if it refuses the first write, the flag drops
      and nothing is written. */
  lemma BaselineWire(refused: nat -> bool)
    ensures var c := SendAll(Conn(true, true, []), BaselineQueries, refused);
      && (Accepted(refused, 4) ==>
            c.connected && c.sent == [63, 80, 13, 63, 86, 13, 63, 77, 13, 63, 70, 13])
      && (refused(0) ==> !c.connected && c.sent == [])
  {
    var start := Conn(true, true, []);
    SendFour(start, "?P", "?V", "?M", "?F", refused);
    if refused(0) {
      var c1 := Send(start, "?P", refused(0));
      assert !c1.connected;
    }
    if Accepted(refused, 4) {
      FrameOfTwo('?', 'P');
      FrameOfTwo('?', 'V');
      FrameOfTwo('?', 'M');
      FrameOfTwo('?', 'F');
      SendFourWhileUp(start, "?P", "?V", "?M", "?F", refused);
      BaselineBytes();
    }
  }

  // Helper for the solver: joining the four query frame literals.
  lemma BaselineBytes()
    ensures var frames: seq<Byte> := [63, 80, 13] + [63, 86, 13] + [63, 77, 13] + [63, 70, 13];
      frames == [63, 80, 13, 63, 86, 13, 63, 77, 13, 63, 70, 13]
  {
  }

  /** On a link that stays up, the ramp puts one three-byte frame per step
      on the wire. */
  lemma RampWire(c: Conn, current: int, goal: int, refused: nat -> bool)
    requires c.connected && c.hasWriter && Accepted(refused, RampSteps(current, goal))
    ensures AllAscii(RampCommands(current, goal))
    ensures |SendAll(c, RampCommands(current, goal), refused).sent| == |c.sent| + 3 * RampSteps(current, goal)
  {
    var commands := RampCommands(current, goal);
    FramesLength(commands);
    SendAllWhileUp(c, commands, refused);
  }

  lemma {:induction false} FramesLength(commands: seq<string>)
    requires forall i :: 0 <= i < |commands| ==> commands[i] == VolumeUp || commands[i] == VolumeDown
    ensures AllAscii(commands) && |Frames(commands)| == 3 * |commands|
  {
    if commands != [] {
      FramesLength(commands[..|commands| - 1]);
    }
  }
}
