/** The static enum-annotation table (`GetPropertyEnumConnections`) and the queries on it. */
module EnumConnections {
  import opened Wrappers
  import opened JournalModel

  /** `CreateConnection`: a fresh, not yet used annotation. */
  function CreateConnection(eventName: string, propertyName: string, enumName: string): (c: PropertyEnumConnection)
    ensures c.eventName == eventName && c.propertyName == propertyName && c.enumName == enumName
    ensures !c.isUsed
  {
    PropertyEnumConnection(eventName, propertyName, enumName, false)
  }

  /** The annotations of the startup events. */
  function StartupConnections(): (table: seq<PropertyEnumConnection>)
    ensures |table| == 8
    ensures forall i :: 0 <= i < |table| ==> !table[i].isUsed
  {
    [
      CreateConnection("Loadout", "Ship", "ShipType"),
      CreateConnection("LoadGame", "Ship", "ShipType"),
      CreateConnection("Rank", "Combat", "CombatRank"),
      CreateConnection("Rank", "Trade", "TradeRank"),
      CreateConnection("Rank", "Explore", "ExplorationRank"),
      CreateConnection("Rank", "Empire", "EmpireRank"),
      CreateConnection("Rank", "Federation", "FederationRank"),
      CreateConnection("Rank", "Cqc", "CqcRank")
    ]
  }

  /** The annotations of the travel events. */
  function TravelConnections(): (table: seq<PropertyEnumConnection>)
    ensures |table| == 4
    ensures forall i :: 0 <= i < |table| ==> !table[i].isUsed
  {
    [
      CreateConnection("DockingDenied", "Reason", "DockingDeniedType"),
      CreateConnection("FsdJump", "PowerplayState", "PowerplayState"),
      CreateConnection("Location", "PowerplayState", "PowerplayState"),
      CreateConnection("StartJump", "JumpType", "JumpType")
    ]
  }

  /** The annotations of the combat events. */
  function CombatConnections(): (table: seq<PropertyEnumConnection>)
    ensures |table| == 1
    ensures forall i :: 0 <= i < |table| ==> !table[i].isUsed
  {
    [
      CreateConnection("ShieldState", "ShieldsUp", "ShieldState")
    ]
  }

  /** The annotations of the exploration events. */
  function ExplorationConnections(): (table: seq<PropertyEnumConnection>)
    ensures |table| == 1
    ensures forall i :: 0 <= i < |table| ==> !table[i].isUsed
  {
    [
      CreateConnection("MaterialCollected", "Category", "MaterialType")
    ]
  }

  /** The annotations of the station services events. */
  function StationServiceConnections(): (table: seq<PropertyEnumConnection>)
    ensures |table| == 19
    ensures forall i :: 0 <= i < |table| ==> !table[i].isUsed
  {
    [
      CreateConnection("EngineerContribution", "Type", "ContributionType"),
      CreateConnection("EngineerProgress", "Progress", "ProgressState"),
      CreateConnection("FetchRemoteModule", "Ship", "ShipType"),
      CreateConnection("MissionAccepted", "Influence", "EffectType"),
      CreateConnection("MissionAccepted", "Reputation", "EffectType"),
      CreateConnection("ModuleBuy", "Ship", "ShipType"),
      CreateConnection("ModuleRetrieve", "Ship", "ShipType"),
      CreateConnection("ModuleSell", "Ship", "ShipType"),
      CreateConnection("ModuleSellRemote", "Ship", "ShipType"),
      CreateConnection("ModuleStore", "Ship", "ShipType"),
      CreateConnection("ModuleSwap", "Ship", "ShipType"),
      CreateConnection("RedeemVoucher", "Type", "VoucherType"),
      CreateConnection("Repair", "Item", "RepairType"),
      CreateConnection("SetUserShipName", "Ship", "ShipType"),
      CreateConnection("ShipyardBuy", "ShipType", "ShipType"),
      CreateConnection("ShipyardNew", "ShipType", "ShipType"),
      CreateConnection("ShipyardSell", "ShipType", "ShipType"),
      CreateConnection("ShipyardTransfer", "ShipType", "ShipType"),
      CreateConnection("ShipyardSwap", "ShipType", "ShipType")
    ]
  }

  /** The annotations of the other events events. */
  function OtherEventConnections(): (table: seq<PropertyEnumConnection>)
    ensures |table| == 7
    ensures forall i :: 0 <= i < |table| ==> !table[i].isUsed
  {
    [
      CreateConnection("DataScanned", "Type", "DataLinkType"),
      CreateConnection("Friends", "Status", "FriendStatus"),
      CreateConnection("Promotion", "Trade", "TradeRank"),
      CreateConnection("Promotion", "Explore", "ExplorationRank"),
      CreateConnection("Promotion", "Empire", "EmpireRank"),
      CreateConnection("Promotion", "Federation", "FederationRank"),
      CreateConnection("Scanned", "ScanType", "ScanType")
    ]
  }

  /** `GetPropertyEnumConnections`: the built-in list, in the order it is built. */
  function PropertyEnumConnections(): (table: seq<PropertyEnumConnection>)
    ensures |table| == 40
    ensures forall i :: 0 <= i < |table| ==> !table[i].isUsed
  {
    StartupConnections()
      + TravelConnections()
      + CombatConnections()
      + ExplorationConnections()
      + StationServiceConnections()
      + OtherEventConnections()
  }

  /** Whether annotation `c` is the one for property `name` of event `eventName`. */
  predicate Annotates(c: PropertyEnumConnection, eventName: string, name: string) {
    c.eventName == eventName && c.propertyName == name
  }

  /** `FirstOrDefault(p => p.EventName == eventName && p.PropertyName == name)`, as an index. */
  function FindConnection(conns: seq<PropertyEnumConnection>, eventName: string, name: string): (r: Option<nat>)
    ensures r.Some? ==> r.value < |conns| && Annotates(conns[r.value], eventName, name)
    ensures r.Some? ==> forall k :: 0 <= k < r.value ==> !Annotates(conns[k], eventName, name)
    ensures r.None? ==> forall k :: 0 <= k < |conns| ==> !Annotates(conns[k], eventName, name)
  {
    if conns == [] then None
    else if Annotates(conns[0], eventName, name) then Some(0)
    else match FindConnection(conns[1..], eventName, name)
      case None => None
      case Some(k) => Some(k + 1)
  }

  /** Two lists hold the same annotations, in the same order, whatever their `isUsed` flags. */
  predicate SameAnnotations(a: seq<PropertyEnumConnection>, b: seq<PropertyEnumConnection>) {
    |a| == |b| &&
    forall i :: 0 <= i < |a| ==>
      a[i].eventName == b[i].eventName && a[i].propertyName == b[i].propertyName && a[i].enumName == b[i].enumName
  }

  /** The lookup reads only the annotation keys, never the `isUsed` flags. */
  lemma FindConnectionIgnoresFlags(a: seq<PropertyEnumConnection>, b: seq<PropertyEnumConnection>, eventName: string, name: string)
    requires SameAnnotations(a, b)
    ensures FindConnection(a, eventName, name) == FindConnection(b, eventName, name)
  {
    var ra, rb := FindConnection(a, eventName, name), FindConnection(b, eventName, name);
    if ra.Some? {
      assert Annotates(b[ra.value], eventName, name);
    }
    if rb.Some? {
      assert Annotates(a[rb.value], eventName, name);
    }
  }

  /** `propertyEnumConnection.IsUsed = true` on entry `i`. */
  function MarkUsed(conns: seq<PropertyEnumConnection>, i: nat): (r: seq<PropertyEnumConnection>)
    ensures SameAnnotations(conns, r)
    ensures forall k :: 0 <= k < |r| ==> r[k].isUsed == (conns[k].isUsed || k == i)
  {
    if i < |conns| then conns[i := conns[i].(isUsed := true)] else conns
  }

  /** The message recorded for an annotation no journal record used. */
  function UnusedMessage(c: PropertyEnumConnection): string {
    "PropertyEnumConnection unused: " + c.eventName + "." + c.propertyName
  }

  /** The end-of-run check: one message per annotation still unused, in table order. */
  function UnusedErrors(conns: seq<PropertyEnumConnection>): (errors: seq<string>)
    ensures errors == [] <==> forall i :: 0 <= i < |conns| ==> conns[i].isUsed
    ensures |errors| <= |conns|
    ensures forall k :: 0 <= k < |conns| && !conns[k].isUsed ==> UnusedMessage(conns[k]) in errors
    ensures forall e :: e in errors ==> exists k :: 0 <= k < |conns| && !conns[k].isUsed && e == UnusedMessage(conns[k])
  {
    if conns == [] then []
    else
      var front := conns[..|conns| - 1];
      var rest := UnusedErrors(front);
      var last := conns[|conns| - 1];
      assert forall i :: 0 <= i < |conns| - 1 ==> conns[i] == front[i];
      if last.isUsed then rest else rest + [UnusedMessage(last)]
  }

  /** The report of a table split in two is the report of its first part, then of its second. */
  lemma {:induction false} UnusedErrorsConcat(a: seq<PropertyEnumConnection>, b: seq<PropertyEnumConnection>)
    ensures UnusedErrors(a + b) == UnusedErrors(a) + UnusedErrors(b)
    decreases |b|
  {
    if b == [] {
      assert a + b == a;
    } else {
      var front := b[..|b| - 1];
      assert (a + b)[..|a + b| - 1] == a + front;
      UnusedErrorsConcat(a, front);
      var last := b[|b| - 1];
      if !last.isUsed {
        assert UnusedErrors(a) + UnusedErrors(front) + [UnusedMessage(last)] ==
               UnusedErrors(a) + (UnusedErrors(front) + [UnusedMessage(last)]);
      }
    }
  }

  /** A single annotation is reported once when unused and not at all when used. */
  lemma UnusedErrorsSingle(c: PropertyEnumConnection)
    ensures UnusedErrors([c]) == if c.isUsed then [] else [UnusedMessage(c)]
  {
    assert [c][..0] == [];
  }
}
