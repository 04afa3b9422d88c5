/** The receiver's observable state and how one inbound status line changes
    it (`PioneerDevice.parseData`). */
module Protocol {
  import opened Builtins

  /** The fields `parseData` reads and writes. `sourceNames` is the key order
      of `nameToNumber`, which Python's dict keeps as insertion order and
      `source_list` reports. */
  datatype DeviceState = DeviceState(
    power: bool,
    muted: bool,
    volume: int,
    selectedSource: Option<string>,
    nameToNumber: map<string, string>,
    numberToName: map<string, string>,
    sourceNames: seq<string>)

  ghost predicate Distinct(s: seq<string>)
  {
    forall i, j :: 0 <= i < j < |s| ==> s[i] != s[j]
  }

  /** Every number a name is mapped to has a name, and every name a number is
      mapped to has a number. This is what the code keeps; it does not keep
      the maps exact inverses of each other (see AddSourceBreaksInverse). */
  ghost predicate Linked(nameToNumber: map<string, string>, numberToName: map<string, string>)
  {
    && (forall name {:trigger nameToNumber[name]} ::
          name in nameToNumber ==> nameToNumber[name] in numberToName)
    && (forall number {:trigger numberToName[number]} ::
          number in numberToName ==> numberToName[number] in nameToNumber)
  }

  /** The two maps are exact inverses of each other. */
  ghost predicate Inverse(nameToNumber: map<string, string>, numberToName: map<string, string>)
  {
    && (forall name :: name in nameToNumber ==>
          nameToNumber[name] in numberToName && numberToName[nameToNumber[name]] == name)
    && (forall number :: number in numberToName ==>
          numberToName[number] in nameToNumber && nameToNumber[numberToName[number]] == number)
  }

  /** The source list holds exactly the names of the map. */
  ghost predicate SameNames(names: seq<string>, nameToNumber: map<string, string>)
  {
    && (forall i {:trigger names[i]} :: 0 <= i < |names| ==> names[i] in nameToNumber)
    && (forall name {:trigger name in nameToNumber} :: name in nameToNumber ==> name in names)
  }

  /** The selected source is none, the empty name `__init__` starts with,
      or a name the name map knows. */
  ghost predicate KnownSelection(st: DeviceState)
  {
    st.selectedSource.Some? && st.selectedSource.value != "" ==> st.selectedSource.value in st.nameToNumber
  }

  ghost predicate Valid(st: DeviceState)
  {
    && KnownSelection(st)
    && Distinct(st.sourceNames)
    && SameNames(st.sourceNames, st.nameToNumber)
    && Linked(st.nameToNumber, st.numberToName)
  }

  // ---------------------------------------------------------------------
  // The initial state

  predicate DistinctNames(sources: seq<(string, string)>)
  {
    forall i, j :: 0 <= i < j < |sources| ==> sources[i].0 != sources[j].0
  }

  /** The configured dict, name to number. */
  function NameMap(sources: seq<(string, string)>): map<string, string>
  {
    if sources == [] then map[]
    else
      var last := sources[|sources| - 1];
      NameMap(sources[..|sources| - 1])[last.0 := last.1]
  }

  /** `dict((v, k) for k, v in sources.items())`: a later name with the same
      number replaces an earlier one. */
  function NumberMap(sources: seq<(string, string)>): map<string, string>
  {
    if sources == [] then map[]
    else
      var last := sources[|sources| - 1];
      NumberMap(sources[..|sources| - 1])[last.1 := last.0]
  }

  function Names(sources: seq<(string, string)>): (r: seq<string>)
    ensures |r| == |sources| && forall i :: 0 <= i < |sources| ==> r[i] == sources[i].0
  {
    seq(|sources|, i requires 0 <= i < |sources| => sources[i].0)
  }

  function Numbers(sources: seq<(string, string)>): (r: seq<string>)
    ensures |r| == |sources| && forall i :: 0 <= i < |sources| ==> r[i] == sources[i].1
  {
    seq(|sources|, i requires 0 <= i < |sources| => sources[i].1)
  }

  /** The state `__init__` sets up from the configured sources. */
  function Initial(sources: seq<(string, string)>): DeviceState
  {
    DeviceState(false, false, 0, Some(""), NameMap(sources), NumberMap(sources), Names(sources))
  }

  // ---------------------------------------------------------------------
  // One inbound line

  /** The effect of an `RGB` line: both maps get the new entry, and a new
      name joins the end of the source list. */
  function AddSource(st: DeviceState, number: string, name: string): DeviceState
  {
    st.(nameToNumber := st.nameToNumber[name := number],
        numberToName := st.numberToName[number := name],
        sourceNames := if name in st.nameToNumber then st.sourceNames else st.sourceNames + [name])
  }

  /** `parseData(data)`: the first matching prefix decides which field
      changes. A `PWR` or `MUT` line with nothing after the prefix raises
      IndexError, a `VOL` line whose next three characters are not an integer
      raises ValueError; in both cases nothing changes. */
  function ParseLine(st: DeviceState, data: string): (r: Result<DeviceState, PyError>)
    ensures r.Err? ==> r.error == IndexError || r.error == ValueError
  {
    if Slice(data, 0, 2) == "FN" then
      var number := Slice(data, 2, 4);
      Ok(st.(selectedSource := if number != "" then Get(st.numberToName, number) else None))
    else if Slice(data, 0, 3) == "PWR" then
      if |data| <= 3 then Err(IndexError)
      else Ok(st.(power := !(data[3] == '1' || data[3] == '2')))
    else if Slice(data, 0, 3) == "MUT" then
      if |data| <= 3 then Err(IndexError)
      else Ok(st.(muted := data[3] != '1'))
    else if Slice(data, 0, 3) == "VOL" then
      match ParseInt(Slice(data, 3, 6))
      case Ok(v) => Ok(st.(volume := v))
      case Err(e) => Err(e)
    else if Slice(data, 0, 3) == "RGB" then
      Ok(AddSource(st, Slice(data, 3, 5), Slice(data, 6, |data|)))
    else if Slice(data, 0, 1) == "E" then
      Ok(st)  // a device error report, only logged
    else
      Ok(st)  // anything else, only printed
  }

  predicate StartsWith(s: string, p: string)
  {
    |p| <= |s| && s[..|p|] == p
  }

  /** The lines `parseData` raises on, stated without reference to it. */
  predicate Malformed(data: string)
  {
    || data == "PWR" || data == "MUT"
    || (StartsWith(data, "VOL") && ParseInt(Slice(data, 3, 6)).Err?)
  }

  // ---------------------------------------------------------------------
  // Lemmas

  lemma SlicePrefix(data: string, p: string)
    ensures Slice(data, 0, |p|) == p <==> StartsWith(data, p)
    ensures StartsWith(data, p) <==> |p| <= |data| && forall k :: 0 <= k < |p| ==> data[k] == p[k]
  {
    if StartsWith(data, p) {
      assert Slice(data, 0, |p|) == data[..|p|];
    }
  }

  /** The dispatch prefixes, character by character. */
  lemma PrefixChars(data: string)
    ensures Slice(data, 0, 2) == "FN" <==> |data| >= 2 && data[0] == 'F' && data[1] == 'N'
    ensures Slice(data, 0, 3) == "PWR" <==> |data| >= 3 && data[0] == 'P' && data[1] == 'W' && data[2] == 'R'
    ensures Slice(data, 0, 3) == "MUT" <==> |data| >= 3 && data[0] == 'M' && data[1] == 'U' && data[2] == 'T'
    ensures Slice(data, 0, 3) == "VOL" <==> |data| >= 3 && data[0] == 'V' && data[1] == 'O' && data[2] == 'L'
    ensures Slice(data, 0, 3) == "RGB" <==> |data| >= 3 && data[0] == 'R' && data[1] == 'G' && data[2] == 'B'
    ensures Slice(data, 0, 1) == "E" <==> |data| >= 1 && data[0] == 'E'
    ensures StartsWith(data, "FN") <==> Slice(data, 0, 2) == "FN"
    ensures StartsWith(data, "PWR") <==> Slice(data, 0, 3) == "PWR"
    ensures StartsWith(data, "MUT") <==> Slice(data, 0, 3) == "MUT"
    ensures StartsWith(data, "VOL") <==> Slice(data, 0, 3) == "VOL"
    ensures StartsWith(data, "RGB") <==> Slice(data, 0, 3) == "RGB"
  {
    SlicePrefix(data, "FN");
    SlicePrefix(data, "PWR");
    SlicePrefix(data, "MUT");
    SlicePrefix(data, "VOL");
    SlicePrefix(data, "RGB");
    SlicePrefix(data, "E");
  }

  /** A line raises exactly when it is one of the malformed ones. */
  lemma ParseLineFails(st: DeviceState, data: string)
    ensures ParseLine(st, data).Err? <==> Malformed(data)
  {
    PrefixChars(data);
  }

  /** A `PWR` line reports the power off for '1' and '2' and on for any
      other character, and changes nothing else. */
  lemma PowerLine(st: DeviceState, data: string)
    requires StartsWith(data, "PWR") && |data| >= 4
    ensures ParseLine(st, data).Ok?
    ensures ParseLine(st, data).value.power <==> data[3] != '1' && data[3] != '2'
    ensures ParseLine(st, data).value.(power := st.power) == st
  {
    PrefixChars(data);
  }

  /** A `MUT` line reports unmuted for '1' and muted for any other
      character, and changes nothing else. */
  lemma MuteLine(st: DeviceState, data: string)
    requires StartsWith(data, "MUT") && |data| >= 4
    ensures ParseLine(st, data).Ok?
    ensures ParseLine(st, data).value.muted <==> data[3] != '1'
    ensures ParseLine(st, data).value.(muted := st.muted) == st
  {
    PrefixChars(data);
  }

  /** A `VOL` line followed by three digits sets the volume to the number
      they spell, and changes nothing else. */
  lemma VolumeLine(st: DeviceState, data: string)
    requires StartsWith(data, "VOL") && |data| >= 6
    requires IsDigit(data[3]) && IsDigit(data[4]) && IsDigit(data[5])
    ensures ParseLine(st, data) ==
      Ok(st.(volume := 100 * DigitValue(data[3]) + 10 * DigitValue(data[4]) + DigitValue(data[5])))
  {
    PrefixChars(data);
    ParseThreeDigits(Slice(data, 3, 6));
  }

  /** Any `VOL` line whose next three characters `int()` accepts sets the
      volume to that number, and changes nothing else. */
  lemma VolumeAnyLine(st: DeviceState, data: string, v: int)
    requires StartsWith(data, "VOL") && ParseInt(Slice(data, 3, 6)) == Ok(v)
    ensures ParseLine(st, data) == Ok(st.(volume := v))
  {
    PrefixChars(data);
  }

  /** An `FN` line selects the source named at the two characters after the
      prefix, or none when that number is unmapped or the line stops after
      the prefix; nothing else changes. */
  lemma SourceLine(st: DeviceState, data: string)
    requires StartsWith(data, "FN")
    ensures ParseLine(st, data).Ok?
    ensures var s := ParseLine(st, data).value;
      && s.(selectedSource := st.selectedSource) == st
      && (|data| == 2 ==> s.selectedSource == None)
      && (|data| > 2 ==>
            var number := data[2..Min(4, |data|)];
            if number in st.numberToName then s.selectedSource == Some(st.numberToName[number])
            else s.selectedSource == None)
  {
    PrefixChars(data);
    if |data| > 2 {
      assert Slice(data, 2, 4) == data[2..Min(4, |data|)];
    }
  }

  /** After an `RGB` line, the number (characters 3 and 4) and the name
      (from character 6 on) map to each other; no key is removed, the other
      entries are kept, and the other fields do not change. */
  lemma SourceEntryLine(st: DeviceState, data: string)
    requires StartsWith(data, "RGB")
    ensures ParseLine(st, data) == Ok(AddSource(st, Slice(data, 3, 5), Slice(data, 6, |data|)))
    ensures var s := AddSource(st, Slice(data, 3, 5), Slice(data, 6, |data|));
      var number := Slice(data, 3, 5);
      var name := Slice(data, 6, |data|);
      && name in s.nameToNumber && s.nameToNumber[name] == number
      && number in s.numberToName && s.numberToName[number] == name
      && s.nameToNumber.Keys == st.nameToNumber.Keys + {name}
      && s.numberToName.Keys == st.numberToName.Keys + {number}
      && (forall n :: n in st.nameToNumber && n != name ==> s.nameToNumber[n] == st.nameToNumber[n])
      && (forall k :: k in st.numberToName && k != number ==> s.numberToName[k] == st.numberToName[k])
      && st.sourceNames <= s.sourceNames
      && s.(nameToNumber := st.nameToNumber, numberToName := st.numberToName,
            sourceNames := st.sourceNames) == st
  {
    PrefixChars(data);
  }

  /** Lines starting with `E`, and lines with no known prefix, change nothing. */
  lemma IgnoredLine(st: DeviceState, data: string)
    requires !StartsWith(data, "FN") && !StartsWith(data, "PWR") && !StartsWith(data, "MUT")
    requires !StartsWith(data, "VOL") && !StartsWith(data, "RGB")
    ensures ParseLine(st, data) == Ok(st)
  {
    PrefixChars(data);
  }

  /** Only an `RGB` line touches the maps and the source list. */
  lemma ParseLineMaps(st: DeviceState, data: string)
    requires ParseLine(st, data).Ok?
    ensures var s := ParseLine(st, data).value;
      if StartsWith(data, "RGB") then s == AddSource(st, Slice(data, 3, 5), Slice(data, 6, |data|))
      else s.nameToNumber == st.nameToNumber && s.numberToName == st.numberToName
           && s.sourceNames == st.sourceNames
  {
    PrefixChars(data);
  }

  /** Processing a line a second time changes nothing more. */
  lemma ParseLineIdempotent(st: DeviceState, data: string)
    requires ParseLine(st, data).Ok?
    ensures ParseLine(ParseLine(st, data).value, data) == ParseLine(st, data)
  {
    if Slice(data, 0, 2) != "FN" && Slice(data, 0, 3) == "RGB" {
      AddSourceTwice(st, Slice(data, 3, 5), Slice(data, 6, |data|));
    }
  }

  /** Registering the same source a second time changes nothing. */
  lemma AddSourceTwice(st: DeviceState, number: string, name: string)
    ensures AddSource(AddSource(st, number, name), number, name) == AddSource(st, number, name)
  {
    var s := AddSource(st, number, name);
    assert s.nameToNumber[name := number] == s.nameToNumber;
    assert s.numberToName[number := name] == s.numberToName;
  }

  lemma DistinctAppend(names: seq<string>, name: string)
    requires Distinct(names) && name !in names
    ensures Distinct(names + [name])
  {
    var s := names + [name];
    forall i, j | 0 <= i < j < |s| ensures s[i] != s[j] {
      if j == |names| {
        assert s[i] == names[i];
      } else {
        assert s[i] == names[i] && s[j] == names[j];
      }
    }
  }

  lemma LinkedAdd(nameToNumber: map<string, string>, numberToName: map<string, string>,
                  number: string, name: string)
    requires Linked(nameToNumber, numberToName)
    ensures Linked(nameToNumber[name := number], numberToName[number := name])
  {
  }

  lemma NamesAdd(names: seq<string>, nameToNumber: map<string, string>, number: string, name: string)
    requires SameNames(names, nameToNumber)
    ensures SameNames(if name in nameToNumber then names else names + [name], nameToNumber[name := number])
  {
    var names' := if name in nameToNumber then names else names + [name];
    forall i | 0 <= i < |names'| ensures names'[i] in nameToNumber[name := number] {
      if i < |names| {
        assert names'[i] == names[i];
      }
    }
  }

  lemma AddSourcePreservesValid(st: DeviceState, number: string, name: string)
    requires Valid(st)
    ensures Valid(AddSource(st, number, name))
  {
    if name !in st.nameToNumber {
      DistinctAppend(st.sourceNames, name);
    }
    NamesAdd(st.sourceNames, st.nameToNumber, number, name);
    LinkedAdd(st.nameToNumber, st.numberToName, number, name);
  }

  /** Every line keeps the state's invariant. */
  lemma ParseLinePreservesValid(st: DeviceState, data: string)
    requires Valid(st) && ParseLine(st, data).Ok?
    ensures Valid(ParseLine(st, data).value)
  {
    if Slice(data, 0, 2) == "FN" {
      SourceLineKeepsValid(st, data);
    } else if Slice(data, 0, 3) == "PWR" || Slice(data, 0, 3) == "MUT" || Slice(data, 0, 3) == "VOL" {
      FlagLineKeepsValid(st, data);
    } else if Slice(data, 0, 3) == "RGB" {
      AddSourcePreservesValid(st, Slice(data, 3, 5), Slice(data, 6, |data|));
    }
  }

  lemma SourceLineKeepsValid(st: DeviceState, data: string)
    requires Valid(st) && Slice(data, 0, 2) == "FN"
    ensures ParseLine(st, data).Ok? && Valid(ParseLine(st, data).value)
  {
    var number := Slice(data, 2, 4);
    var selected := SourceLineShape(st, data);
    SelectKeepsValid(st, number, selected);
  }

  lemma SourceLineShape(st: DeviceState, data: string) returns (selected: Option<string>)
    requires Slice(data, 0, 2) == "FN"
    ensures selected == None || (Slice(data, 2, 4) in st.numberToName && selected == Some(st.numberToName[Slice(data, 2, 4)]))
    ensures ParseLine(st, data) == Ok(st.(selectedSource := selected))
  {
    var number := Slice(data, 2, 4);
    selected := if number != "" then Get(st.numberToName, number) else None;
  }

  lemma FlagLineKeepsValid(st: DeviceState, data: string)
    requires Valid(st) && ParseLine(st, data).Ok? && Slice(data, 0, 2) != "FN"
    requires Slice(data, 0, 3) == "PWR" || Slice(data, 0, 3) == "MUT" || Slice(data, 0, 3) == "VOL"
    ensures Valid(ParseLine(st, data).value)
  {
    FlagLineShape(st, data);
    ValidIgnoresFlags(st, ParseLine(st, data).value);
  }

  lemma FlagLineShape(st: DeviceState, data: string)
    requires ParseLine(st, data).Ok? && Slice(data, 0, 2) != "FN"
    requires Slice(data, 0, 3) == "PWR" || Slice(data, 0, 3) == "MUT" || Slice(data, 0, 3) == "VOL"
    ensures var s := ParseLine(st, data).value;
      s == st.(power := s.power, muted := s.muted, volume := s.volume)
  {
  }

  /** Selecting the source a number names, or none, keeps the invariant. */
  lemma SelectKeepsValid(st: DeviceState, number: string, selected: Option<string>)
    requires Valid(st)
    requires selected == None || (number in st.numberToName && selected == Some(st.numberToName[number]))
    ensures Valid(st.(selectedSource := selected))
  {
    if selected.Some? {
      assert st.numberToName[number] in st.nameToNumber;
    }
  }

  /** The power, mute and volume fields play no part in the invariant. */
  lemma ValidIgnoresFlags(st: DeviceState, s: DeviceState)
    requires Valid(st)
    requires s.selectedSource == st.selectedSource && s.sourceNames == st.sourceNames
    requires s.nameToNumber == st.nameToNumber && s.numberToName == st.numberToName
    ensures Valid(s)
  {
  }

  /** The initial name map has exactly the configured names as keys. */
  lemma {:induction false} NameMapKeys(sources: seq<(string, string)>)
    ensures forall name :: name in NameMap(sources) <==> name in Names(sources)
  {
    if sources != [] {
      var init := sources[..|sources| - 1];
      NameMapKeys(init);
      assert Names(sources) == Names(init) + [sources[|sources| - 1].0];
    }
  }

  /** The initial number map has exactly the configured numbers as keys. */
  lemma {:induction false} NumberMapKeys(sources: seq<(string, string)>)
    ensures forall number :: number in NumberMap(sources) <==> number in Numbers(sources)
  {
    if sources != [] {
      var init := sources[..|sources| - 1];
      NumberMapKeys(init);
      assert Numbers(sources) == Numbers(init) + [sources[|sources| - 1].1];
    }
  }

  /** Each configured name maps to its configured number. */
  lemma {:induction false} InitialLookup(sources: seq<(string, string)>)
    requires DistinctNames(sources)
    ensures forall i :: 0 <= i < |sources| ==>
      sources[i].0 in NameMap(sources) && NameMap(sources)[sources[i].0] == sources[i].1
  {
    if sources != [] {
      var init := sources[..|sources| - 1];
      InitialLookup(init);
      forall i | 0 <= i < |sources|
        ensures sources[i].0 in NameMap(sources) && NameMap(sources)[sources[i].0] == sources[i].1
      {
        if i < |init| {
          assert sources[i] == init[i];
        }
      }
    }
  }

  /** When two configured names share a number, the inverse dict keeps the
      later one: a name maps back from its number exactly when no later
      entry carries that number. */
  lemma {:induction false} InitialLaterWins(sources: seq<(string, string)>)
    ensures forall i :: 0 <= i < |sources| && (forall j :: i < j < |sources| ==> sources[j].1 != sources[i].1) ==>
      sources[i].1 in NumberMap(sources) && NumberMap(sources)[sources[i].1] == sources[i].0
  {
    if sources != [] {
      var n := |sources| - 1;
      var init := sources[..n];
      InitialLaterWins(init);
      forall i | 0 <= i < |sources| && (forall j :: i < j < |sources| ==> sources[j].1 != sources[i].1)
        ensures sources[i].1 in NumberMap(sources) && NumberMap(sources)[sources[i].1] == sources[i].0
      {
        if i < n {
          assert init[i] == sources[i];
          assert sources[n].1 != sources[i].1;
          assert forall j :: i < j < |init| ==> init[j] == sources[j];
        }
      }
    }
  }

  /** Each number of the initial number map names a configured name that
      has that number (with two names for one number, the later one). */
  lemma {:induction false} InitialRightInverse(sources: seq<(string, string)>)
    requires DistinctNames(sources)
    ensures forall number :: number in NumberMap(sources) ==>
      NumberMap(sources)[number] in NameMap(sources)
      && NameMap(sources)[NumberMap(sources)[number]] == number
  {
    if sources != [] {
      var init := sources[..|sources| - 1];
      var last := sources[|sources| - 1];
      InitialRightInverse(init);
      NameMapKeys(init);
      assert last.0 !in NameMap(init);
      var n2i, i2n := NameMap(sources), NumberMap(sources);
      forall number | number in i2n ensures i2n[number] in n2i && n2i[i2n[number]] == number {
        if number != last.1 {
          var k := NumberMap(init)[number];
          assert i2n[number] == k && k in NameMap(init);
        }
      }
    }
  }

  /** The configured sources give a valid state. */
  lemma InitialValid(sources: seq<(string, string)>)
    requires DistinctNames(sources)
    ensures Valid(Initial(sources))
  {
    InitialLinked(sources);
    NameMapKeys(sources);
    var names := Names(sources);
    assert Distinct(names) by {
      forall i, j | 0 <= i < j < |names| ensures names[i] != names[j] {
        assert names[i] == sources[i].0 && names[j] == sources[j].0;
      }
    }
  }

  /** The configured dict and its inverse satisfy `Linked`. */
  lemma InitialLinked(sources: seq<(string, string)>)
    requires DistinctNames(sources)
    ensures Linked(NameMap(sources), NumberMap(sources))
  {
    NameMapKeys(sources);
    NumberMapKeys(sources);
    InitialLookup(sources);
    InitialRightInverse(sources);
    var nameToNumber, numberToName := NameMap(sources), NumberMap(sources);
    forall name | name in nameToNumber ensures nameToNumber[name] in numberToName {
      var i :| 0 <= i < |sources| && Names(sources)[i] == name;
      assert Numbers(sources)[i] == sources[i].1;
    }
  }

  /** An `RGB` entry keeps the maps exact inverses when neither its name nor
      its number was mapped elsewhere before. */
  lemma AddSourceKeepsInverse(st: DeviceState, number: string, name: string)
    requires Inverse(st.nameToNumber, st.numberToName)
    requires name in st.nameToNumber ==> st.nameToNumber[name] == number
    requires number in st.numberToName ==> st.numberToName[number] == name
    ensures Inverse(AddSource(st, number, name).nameToNumber, AddSource(st, number, name).numberToName)
  {
  }

  /** Renaming: once a name moves to a new number, the old number still
      names it, so the code does not keep the maps exact inverses. */
  lemma AddSourceBreaksInverse(st: DeviceState)
    requires st.nameToNumber == map["Aux" := "05"] && st.numberToName == map["05" := "Aux"]
    ensures Inverse(st.nameToNumber, st.numberToName)
    ensures ParseLine(st, "RGB06 Aux") == Ok(AddSource(st, "06", "Aux"))
    ensures var s := AddSource(st, "06", "Aux");
      && s.numberToName["05"] == "Aux" && s.nameToNumber["Aux"] == "06"
      && !Inverse(s.nameToNumber, s.numberToName)
  {
    var line := "RGB06 Aux";
    SourceEntryLine(st, line);
    assert Slice(line, 3, 5) == "06";
    assert Slice(line, 6, |line|) == "Aux";
  }

  /** `VOL085` followed by the line terminator sets the volume to 85. */
  lemma VolumeExample(st: DeviceState)
    ensures ParseLine(st, "VOL085\r\n") == Ok(st.(volume := 85))
  {
    VolumeLine(st, "VOL085\r\n");
  }

  /** A `VOL` line whose value field `data[3:6]` holds a character that
      `int()` cannot read (not white space, a digit, an underscore or a sign)
      raises ValueError out of `parseData`. */
  lemma VolumeRejectsLine(st: DeviceState, data: string, k: nat)
    requires StartsWith(data, "VOL") && 3 <= k < Min(6, |data|)
    requires !IntSpace(data[k]) && !IsDigit(data[k]) && data[k] != '_' && data[k] != '+' && data[k] != '-'
    ensures ParseLine(st, data) == Err(ValueError)
  {
    var t := Slice(data, 3, 6);
    assert t[k - 3] == data[k];
    ParseIntRejects(t, data[k]);
    PrefixChars(data);
  }

  /** `VOLxx\r\n` raises ValueError. */
  lemma LetterVolumeExample(st: DeviceState)
    ensures ParseLine(st, "VOLxx\r\n") == Err(ValueError)
  {
    VolumeRejectsLine(st, "VOLxx\r\n", 3);
  }

  /** `int()` does not skip U+001C, so `VOL` U+001C `12` raises ValueError. */
  lemma SeparatorVolumeExample(st: DeviceState)
    ensures ParseLine(st, "VOL\U{1c}12\r\n") == Err(ValueError)
  {
    VolumeRejectsLine(st, "VOL\U{1c}12\r\n", 3);
  }

  /** `VOL5` followed by the line terminator sets the volume to 5, as
      `int("5\r\n")` ignores the surrounding white space. */
  lemma ShortVolumeExample(st: DeviceState)
    ensures ParseLine(st, "VOL5\r\n") == Ok(st.(volume := 5))
  {
    var line := "VOL5\r\n";
    assert Slice(line, 3, 6) == "5\r\n";
    assert TrimStart("5\r\n") == "5\r\n";
    assert "5\r\n"[..2] == "5\r" && "5\r"[..1] == "5";
    assert TrimEnd("5\r\n") == "5";
    ParseDigits("5");
    VolumeAnyLine(st, line, 5);
  }

  /** The name an `RGB` line registers keeps the line's terminator, and an
      `FN` line naming that number then selects it. */
  lemma SourceExample(st: DeviceState)
    ensures ParseLine(st, "RGB05 Aux\r\n").Ok?
    ensures var s := ParseLine(st, "RGB05 Aux\r\n").value;
      ParseLine(s, "FN05\r\n") == Ok(s.(selectedSource := Some("Aux\r\n")))
  {
    var line := "RGB05 Aux\r\n";
    assert Slice(line, 0, 2) == "RG";
    assert Slice(line, 0, 3) == "RGB";
    assert Slice(line, 3, 5) == "05";
    assert Slice(line, 6, |line|) == "Aux\r\n";
    assert Slice("FN05\r\n", 0, 2) == "FN";
    assert Slice("FN05\r\n", 2, 4) == "05";
  }
}
