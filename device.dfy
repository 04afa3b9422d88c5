/** `PioneerDevice`: the receiver's state mirror and its command operations,
    with the socket replaced by the `Telnet.Conn` fields. Each method is
    specified by the function of `Protocol`, `Telnet` or `Commands` that
    gives its effect. */
module Device {
  import opened Builtins
  import opened Protocol
  import opened Telnet
  import opened Commands

  class PioneerDevice {
    // the state `parseData` maintains
    var power: bool
    var muted: bool
    var volume: int
    var selectedSource: Option<string>
    var nameToNumber: map<string, string>
    var numberToName: map<string, string>
    var sourceNames: seq<string>   // key order of nameToNumber
    // the outbound connection
    var hasConnection: bool
    var hasWriter: bool
    var sent: seq<Byte>

    function State(): DeviceState
      reads this`power, this`muted, this`volume, this`selectedSource, this`nameToNumber, this`numberToName, this`sourceNames
    {
      DeviceState(power, muted, volume, selectedSource, nameToNumber, numberToName, sourceNames)
    }

    function Connection(): Conn
      reads this`hasConnection, this`hasWriter, this`sent
    {
      Conn(hasConnection, hasWriter, sent)
    }

    ghost predicate Valid()
      reads this`power, this`muted, this`volume, this`selectedSource, this`nameToNumber, this`numberToName, this`sourceNames
    {
      Protocol.Valid(State())
    }

    /** `__init__`: powered off, unmuted, volume 0, selected source "", the
        configured name-to-number dict and its inverse, no connection and no
        writer. */
    constructor (sources: seq<(string, string)>)
      requires DistinctNames(sources)
      ensures Valid()
      ensures State() == Initial(sources)
      ensures Connection() == Conn(false, false, [])
    {
      power, muted, volume, selectedSource := false, false, 0, Some("");
      nameToNumber := NameMap(sources);
      numberToName := NumberMap(sources);
      sourceNames := Names(sources);
      hasConnection, hasWriter, sent := false, false, [];
      new;
      InitialValid(sources);
    }

    /** `parseData(data)`: on success the state is the one `ParseLine`
        gives and the result is the empty string; on an exception nothing
        changes. The state stays valid. */
    method ParseData(data: string) returns (r: Result<string, PyError>)
      requires Valid()
      modifies this`power, this`muted, this`volume, this`selectedSource, this`nameToNumber, this`numberToName, this`sourceNames
      ensures Valid()
      ensures Connection() == old(Connection())
      ensures match ParseLine(old(State()), data)
        case Ok(s) => r == Ok("") && State() == s
        case Err(e) => r == Err(e) && State() == old(State())
    {
      r := ApplyLine(data);
      if r.Ok? {
        ParseLinePreservesValid(old(State()), data);
      }
    }

    /** The branches of `parseData`, field by field. */
    method ApplyLine(data: string) returns (r: Result<string, PyError>)
      modifies this`power, this`muted, this`volume, this`selectedSource, this`nameToNumber, this`numberToName, this`sourceNames
      ensures Connection() == old(Connection())
      ensures match ParseLine(old(State()), data)
        case Ok(s) => r == Ok("") && State() == s
        case Err(e) => r == Err(e) && State() == old(State())
    {
      if Slice(data, 0, 2) == "FN" {
        var sourceNumber := Slice(data, 2, 4);
        if sourceNumber != "" {
          selectedSource := Get(numberToName, sourceNumber);
        } else {
          selectedSource := None;
        }
      } else if Slice(data, 0, 3) == "PWR" {
        if |data| <= 3 {
          return Err(IndexError);
        }
        if data[3] == '1' || data[3] == '2' {
          power := false;
        } else {
          power := true;
        }
      } else if Slice(data, 0, 3) == "MUT" {
        if |data| <= 3 {
          return Err(IndexError);
        }
        if data[3] == '1' {
          muted := false;
        } else {
          muted := true;
        }
      } else if Slice(data, 0, 3) == "VOL" {
        var level := ParseInt(Slice(data, 3, 6));
        if level.Err? {
          return Err(level.error);
        }
        volume := level.value;
      } else if Slice(data, 0, 3) == "RGB" {
        var sourceNumber := Slice(data, 3, 5);
        var sourceName := Slice(data, 6, |data|);
        if sourceName !in nameToNumber {
          sourceNames := sourceNames + [sourceName];
        }
        nameToNumber := nameToNumber[sourceName := sourceNumber];
        numberToName := numberToName[sourceNumber := sourceName];
      } else if Slice(data, 0, 1) == "E" {
        // a device error report: only logged
      } else {
        // anything else: only printed
      }
      r := Ok("");
    }

    /** `telnet_command(command)`; `refused` is whether the transport raises
        on this write. */
    method TelnetCommand(command: string, refused: bool)
      modifies this`hasConnection, this`hasWriter, this`sent
      ensures State() == old(State())
      ensures Connection() == Send(old(Connection()), command, refused)
    {
      if hasConnection {
        if !hasWriter {
          hasConnection := false;
          return;
        }
        var bytes := EncodeAscii(command);
        if bytes.None? || refused {
          hasConnection := false;
          return;
        }
        sent := sent + bytes.value + [CarriageReturn];
      }
    }

    /** The part of the receive loop that runs once `open_connection`
        succeeds: a fresh writer, the connection flag up, and the four
        status queries; `refused(i)` is the transport's answer to query `i`. */
    method OpenConnection(refused: nat -> bool)
      modifies this`hasConnection, this`hasWriter, this`sent
      ensures State() == old(State())
      ensures Connection() == SendAll(Conn(true, true, []), BaselineQueries, refused)
    {
      hasWriter, sent := true, [];
      hasConnection := true;
      assert State() == old(State());
      SendFour(Connection(), "?P", "?V", "?M", "?F", refused);
      TelnetCommand("?P", refused(0));
      TelnetCommand("?V", refused(1));
      TelnetCommand("?M", refused(2));
      TelnetCommand("?F", refused(3));
    }

    method TurnOff(refused: bool)
      modifies this`hasConnection, this`hasWriter, this`sent
      ensures State() == old(State())
      ensures Connection() == Send(old(Connection()), PowerOff, refused)
    {
      TelnetCommand(PowerOff, refused);
    }

    method VolumeUp(refused: bool)
      modifies this`hasConnection, this`hasWriter, this`sent
      ensures State() == old(State())
      ensures Connection() == Send(old(Connection()), Commands.VolumeUp, refused)
    {
      TelnetCommand(Commands.VolumeUp, refused);
    }

    method VolumeDown(refused: bool)
      modifies this`hasConnection, this`hasWriter, this`sent
      ensures State() == old(State())
      ensures Connection() == Send(old(Connection()), Commands.VolumeDown, refused)
    {
      TelnetCommand(Commands.VolumeDown, refused);
    }

    method MuteVolume(mute: bool, refused: bool)
      modifies this`hasConnection, this`hasWriter, this`sent
      ensures State() == old(State())
      ensures Connection() == Send(old(Connection()), MuteCommand(mute), refused)
    {
      TelnetCommand(MuteCommand(mute), refused);
    }

    method TurnOn(refused: nat -> bool)
      modifies this`hasConnection, this`hasWriter, this`sent
      ensures State() == old(State())
      ensures Connection() == SendAll(old(Connection()), TurnOnCommands, refused)
    {
      SendFour(Connection(), "", "\nPO", "", "?P", refused);
      TelnetCommand("", refused(0));
      TelnetCommand("\nPO", refused(1));
      TelnetCommand("", refused(2));
      TelnetCommand("?P", refused(3));
    }

    /** `set_volume_level` for an integer raw goal: one `VU` or `VD` per
        step of `RampCommands`, issued one after the other; `refused(x)` is
        the transport's answer to step `x`. */
    method SetVolumeLevel(goal: int, refused: nat -> bool)
      modifies this`hasConnection, this`hasWriter, this`sent
      ensures State() == old(State())
      ensures Connection() == SendAll(old(Connection()), RampCommands(old(volume), goal), refused)
    {
      var currentLevel := volume;
      var goUp := currentLevel - goal < 0;
      var steps := RampSteps(currentLevel, goal);
      ghost var commands := RampCommands(currentLevel, goal);
      for x := 0 to steps
        invariant State() == old(State())
        invariant Connection() == SendAll(old(Connection()), commands[..x], refused)
      {
        if goUp {
          VolumeUp(refused(x));
        } else {
          VolumeDown(refused(x));
        }
        SendAllSnoc(old(Connection()), commands[..x], commands[x], refused);
        assert commands[..x + 1] == commands[..x] + [commands[x]];
      }
      assert commands[..steps] == commands;
    }

    /** `select_source(source)`: an unknown name raises TypeError and sends
        nothing. */
    method SelectSource(source: string, refused: bool) returns (r: Result<(), PyError>)
      modifies this`hasConnection, this`hasWriter, this`sent
      ensures State() == old(State())
      ensures match SelectCommand(old(nameToNumber), source)
        case Ok(command) => r == Ok(()) && Connection() == Send(old(Connection()), command, refused)
        case Err(e) => r == Err(e) && Connection() == old(Connection())
    {
      var command := SelectCommand(nameToNumber, source);
      if command.Err? {
        return Err(command.error);
      }
      TelnetCommand(command.value, refused);
      r := Ok(());
    }

    /** The command half of `query_source(num)`. */
    method QuerySource(num: int, refused: bool)
      modifies this`hasConnection, this`hasWriter, this`sent
      ensures State() == old(State())
      ensures Connection() == Send(old(Connection()), QueryCommand(num), refused)
    {
      TelnetCommand(QueryCommand(num), refused);
    }

    /** `state`: "on" exactly when the power flag is set, "off" otherwise. */
    function PowerState(): (r: string)
      reads this
      ensures r == "on" <==> power
      ensures r == "off" <==> !power
    {
      if power then "on" else "off"
    }

    /** `source`: in a valid state, no source, the empty name the entity
        starts with, or one of the known sources. */
    function Source(): (r: Option<string>)
      reads this
      ensures Valid() ==> r == None || r == Some("") || r.value in SourceList()
    {
      selectedSource
    }

    /** `is_volume_muted`: the mute flag `MUT` lines set. */
    function IsVolumeMuted(): (r: bool)
      reads this
      ensures r == State().muted
    {
      muted
    }

    /** `source_list`: every known source name, once each, in the order the
        names were first added. */
    function SourceList(): (r: seq<string>)
      reads this
      requires Valid()
      ensures forall name :: name in r <==> name in nameToNumber
      ensures Distinct(r)
    {
      sourceNames
    }
  }
}
