/** The plugin settings of server/configuration.go: the values the System
    Console stores, and the four id lists derived from them whenever the
    configuration changes. A Configuration is an object because the plugin
    keeps a pointer to it and compares that pointer when a new one is set. */
module Settings {
  import opened Text

  /** The fields the host fills in from the System Console. The access modes
      are kept as the strings the console stores (allow_all, allow_selected,
      block_selected, block_all, or anything else). */
  datatype Console = Console(
    muChatApiKey: string,
    agentId: string,
    enableDebug: bool,
    channelAccess: string,
    channelAllowList: string,
    channelBlockList: string,
    userAccess: string,
    userAllowList: string,
    userBlockList: string)

  /** All the values a Configuration holds: the console fields and the four
      derived id lists. */
  datatype Snapshot = Snapshot(
    console: Console,
    channelAllowIds: seq<string>,
    channelBlockIds: seq<string>,
    userAllowIds: seq<string>,
    userBlockIds: seq<string>)

  const EmptyConsole := Console([], [], false, [], [], [], [], [], [])

  /** The zero value of the struct, which is what a fresh Configuration holds. */
  const Empty := Snapshot(EmptyConsole, [], [], [], [])

  /** The ids a single comma-separated piece contributes: the piece trimmed,
      or nothing when it is blank. */
  function Keep(part: string): seq<string>
  {
    var id := TrimSpace(part);
    if id == [] then [] else [id]
  }

  /** The ids that a list of pieces contributes, in the order of the pieces. */
  function KeepIds(parts: seq<string>): seq<string>
  {
    if parts == [] then []
    else KeepIds(parts[..|parts| - 1]) + Keep(parts[|parts| - 1])
  }

  /** Every id in the list is non-empty and is its own TrimSpace. */
  lemma {:induction false} IdsAreTrimmed(parts: seq<string>)
    ensures forall id <- KeepIds(parts) :: id != [] && TrimSpace(id) == id
  {
    if parts != [] {
      IdsAreTrimmed(parts[..|parts| - 1]);
      TrimSpaceIdempotent(parts[|parts| - 1]);
    }
  }

  /** The id list that a comma-separated console field describes. */
  function IdsOf(list: string): seq<string>
  {
    KeepIds(Split(list, ','))
  }

  /** The positions of the pieces that survive, in increasing order: the
      i-th id is the trimmed piece at the i-th position, and every piece that
      is not blank after trimming has its position in the list. So the ids
      keep the order of the pieces and no non-blank piece is lost. */
  function KeptPositions(parts: seq<string>): (pos: seq<nat>)
    ensures |pos| == |KeepIds(parts)|
    ensures forall k :: 0 <= k < |pos| ==> pos[k] < |parts| && KeepIds(parts)[k] == TrimSpace(parts[pos[k]])
    ensures forall j, k :: 0 <= j < k < |pos| ==> pos[j] < pos[k]
  {
    if parts == [] then []
    else
      var n := |parts| - 1;
      var before := KeptPositions(parts[..n]);
      assert forall k :: 0 <= k < |before| ==> parts[..n][before[k]] == parts[before[k]];
      before + (if TrimSpace(parts[n]) == [] then [] else [n])
  }

  /** No piece that is not blank after trimming is dropped. */
  lemma {:induction false} NonBlankPieceKept(parts: seq<string>, m: nat)
    requires m < |parts| && TrimSpace(parts[m]) != []
    ensures m in KeptPositions(parts)
  {
    var n := |parts| - 1;
    assert KeptPositions(parts) == KeptPositions(parts[..n]) + (if TrimSpace(parts[n]) == [] then [] else [n]);
    if m < n {
      assert parts[..n][m] == parts[m];
      NonBlankPieceKept(parts[..n], m);
    }
  }

  /** Every character is a comma or white space. */
  predicate CommasAndSpaces(s: string)
  {
    forall k :: 0 <= k < |s| ==> s[k] == ',' || IsSpace(s[k])
  }

  lemma {:induction false} KeepIdsCons(part: string, parts: seq<string>)
    ensures KeepIds([part] + parts) == Keep(part) + KeepIds(parts)
    decreases |parts|
  {
    if parts != [] {
      var n := |parts| - 1;
      assert ([part] + parts)[..n + 1] == [part] + parts[..n];
      KeepIdsCons(part, parts[..n]);
    } else {
      assert [part] + parts == [part];
      assert [part][..0] == [];
    }
  }

  /** A list field yields no ids exactly when it holds nothing but commas and
      white space (the empty field included). */
  lemma {:induction false} IdsOfEmptyIff(list: string)
    ensures IdsOf(list) == [] <==> CommasAndSpaces(list)
    decreases |list|
  {
    if list == [] {
      assert Split(list, ',') == [[]];
      assert KeepIds([[]]) == KeepIds([]) + Keep([]);
    } else {
      var rest := Split(list[1..], ',');
      IdsOfEmptyIff(list[1..]);
      CommasAndSpacesCons(list);
      if list[0] == ',' {
        KeepIdsCons([], rest);
        assert Keep([]) == [];
      } else {
        var first := [list[0]] + rest[0];
        assert Split(list, ',') == [first] + rest[1..];
        KeepIdsCons(first, rest[1..]);
        KeepIdsCons(rest[0], rest[1..]);
        assert rest == [rest[0]] + rest[1..];
        KeepPrependedChar(list[0], rest[0]);
      }
    }
  }

  lemma CommasAndSpacesCons(list: string)
    requires list != []
    ensures CommasAndSpaces(list) <==> (list[0] == ',' || IsSpace(list[0])) && CommasAndSpaces(list[1..])
  {
    if (list[0] == ',' || IsSpace(list[0])) && CommasAndSpaces(list[1..]) {
      forall k | 0 <= k < |list| ensures list[k] == ',' || IsSpace(list[k]) {
        if k > 0 { assert list[k] == list[1..][k - 1]; }
      }
    }
    if CommasAndSpaces(list) {
      forall k | 0 <= k < |list[1..]| ensures list[1..][k] == ',' || IsSpace(list[1..][k]) {
        assert list[1..][k] == list[k + 1];
      }
    }
  }

  /** A piece contributes nothing exactly when it is all white space; a
      character in front of a piece leaves that unchanged only if it is a space. */
  lemma KeepPrependedChar(c: char, part: string)
    ensures Keep([c] + part) == [] <==> IsSpace(c) && Keep(part) == []
  {
    var first := [c] + part;
    TrimSpaceEnds(first);
    TrimSpaceEnds(part);
    assert first[1..] == part;
    if IsSpace(c) {
      AllSpaceTail(first);
    }
  }

  /** The id list of a field that has no comma is that field trimmed, or no
      id when it is blank. */
  lemma IdsOfSingle(list: string)
    requires ',' !in list
    ensures IdsOf(list) == Keep(list)
  {
    SplitWithoutSeparator(list, ',');
    assert KeepIds([list]) == KeepIds([]) + Keep(list);
  }

  /** The comma-splitting helper of OnConfigurationChange: split the field at
      every comma, trim each piece, and keep the pieces that are not blank. */
  method SplitIds(list: string) returns (out: seq<string>)
    ensures out == IdsOf(list)
  {
    out := [];
    var parts := Split(list, ',');
    for i := 0 to |parts|
      invariant out == KeepIds(parts[..i])
    {
      var part := TrimSpace(parts[i]);
      if part != [] {
        out := out + [part];
      }
      assert parts[..i + 1][..i] == parts[..i];
    }
    assert parts[..|parts|] == parts;
  }

  /** The struct behind the plugin's configuration pointer. The nine
      exported fields that the host loads are grouped in `console`; the four
      id lists derived from them are fields of their own. */
  class Configuration {
    var console: Console
    var channelAllowIds: seq<string>
    var channelBlockIds: seq<string>
    var userAllowIds: seq<string>
    var userBlockIds: seq<string>

    /** The values this object holds. */
    function Value(): Snapshot
      reads this
    {
      Snapshot(console, channelAllowIds, channelBlockIds, userAllowIds, userBlockIds)
    }

    /** Each derived id list is the id list of its console field. */
    predicate Derived()
      reads this
    {
      channelAllowIds == IdsOf(console.channelAllowList)
      && channelBlockIds == IdsOf(console.channelBlockList)
      && userAllowIds == IdsOf(console.userAllowList)
      && userBlockIds == IdsOf(console.userBlockList)
    }

    /** A configuration holding the given values; `new Configuration(Empty)`
        is the zero-valued struct that `new(Configuration)` and
        `&Configuration{}` make. */
    constructor (v: Snapshot)
      ensures Value() == v
    {
      console := v.console;
      channelAllowIds, channelBlockIds := v.channelAllowIds, v.channelBlockIds;
      userAllowIds, userBlockIds := v.userAllowIds, v.userBlockIds;
    }

    /** LoadPluginConfiguration: the host copies the stored console values
        into the exported fields; the derived lists are not part of the
        stored settings and keep their values. */
    method Load(stored: Console)
      modifies this
      ensures Value() == old(Value()).(console := stored)
    {
      console := stored;
    }

    /** Fills in the four derived id lists from the console fields. */
    method Derive()
      modifies this
      ensures Derived()
      ensures console == old(console)
    {
      var c := console;
      var channelAllow := SplitIds(c.channelAllowList);
      var channelBlock := SplitIds(c.channelBlockList);
      var userAllow := SplitIds(c.userAllowList);
      var userBlock := SplitIds(c.userBlockList);
      channelAllowIds, channelBlockIds, userAllowIds, userBlockIds := channelAllow, channelBlock, userAllow, userBlock;
    }

    /** A deep copy: a new object holding the same values. */
    method Clone() returns (c: Configuration)
      ensures fresh(c)
      ensures c.Value() == Value()
    {
      c := new Configuration(Value());
    }
  }
}
