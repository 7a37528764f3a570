/** The application and its services as a whole registry makes them. */
module AppConfigResults {
  import opened Lists
  import opened Text
  import opened ImsProperties
  import opened CoreServices
  import opened AppConfigs
  import opened AppConfigOrders
  import opened AppConfigParts
  import opened AppConfigMeanings

  // ---------------------------------------------------------------- properties by their key

  predicate IsKeyed(p: Property, key: string) {
    p != [] && p[0] == key
  }

  /** The index of the last property with the key, or -1. */
  function LastAt(reg: seq<Property>, key: string): (r: int)
    ensures -1 <= r < |reg|
    ensures r >= 0 ==> IsKeyed(reg[r], key)
    ensures forall j | r < j < |reg| :: !IsKeyed(reg[j], key)
  {
    if reg == [] then -1
    else
      assert forall j | 1 <= j < |reg| :: reg[j] == reg[1..][j - 1];
      var r := LastAt(reg[1..], key);
      if r >= 0 then r + 1 else if IsKeyed(reg[0], key) then 0 else -1
  }

  lemma {:induction false} LastOfOne(p: Property, key: string)
    ensures LastAt([p], key) == if IsKeyed(p, key) then 0 else -1
  {
  }

  lemma {:induction false} KeysOfServices(p: Property)
    requires p != []
    ensures IsCore(p) <==> p[0] == "CoreService"
    ensures IsRelated(p) <==> p[0] in {"Qos", "Reg", "Mprof", "Connection"}
  {
    KeyIs(p[0]);
  }

  /** The keys of the application's own properties by their text. */
  lemma {:induction false} OwnKeys(s: string)
    ensures StringToKey(s) == Stream <==> s == "Stream"
    ensures StringToKey(s) == Framed <==> s == "Framed"
    ensures StringToKey(s) == Basic <==> s == "Basic"
    ensures StringToKey(s) == EventKey <==> s == "Event"
    ensures StringToKey(s) == WriteKey <==> s == "Write"
    ensures StringToKey(s) == ReadKey <==> s == "Read"
    ensures StringToKey(s) == Cap <==> s == "Cap"
  {
    KeyIs(s);
  }

  predicate IsOwn(p: Property) {
    p != [] && p[0] !in {"CoreService", "Qos", "Reg", "Mprof", "Connection"}
  }

  /** The texts of the keys that may appear once only. */
  predicate IsSingle(key: string) {
    key in {"", "Stream", "Framed", "Basic", "Event", "Write", "Read"}
  }

  /** A registry is good exactly when every property has a known key, or an empty one, and no single key is there twice. */
  lemma {:induction false} GoodRegistryIff(reg: seq<Property>)
    ensures GoodRegistry(reg)
            <==> (forall i | 0 <= i < |reg| :: reg[i] != [] && KeyFor(reg[i][0]) != Custom)
                 && (forall i, j | 0 <= j < i < |reg| && reg[i] != [] && reg[j] != [] && IsSingle(reg[i][0]) ::
                       reg[i][0] != reg[j][0])
  {
    forall i | 0 <= i < |reg|
      ensures GoodAt(reg, i)
              <==> reg[i] != [] && KeyFor(reg[i][0]) != Custom
                   && (IsSingle(reg[i][0]) ==> forall j | 0 <= j < i && reg[j] != [] :: reg[j][0] != reg[i][0]) {
      if reg[i] != [] {
        KeyIs(reg[i][0]);
        SingleIff(reg[i][0]);
      }
    }
    if GoodRegistry(reg) {
      forall i | 0 <= i < |reg| ensures GoodAt(reg, i) {
      }
    }
  }

  lemma {:induction false} SingleIff(key: string)
    ensures KeyFor(key) != Custom ==> (IsSingle(key) <==> !MayRepeat(KeyFor(key)))
  {
  }

  // ---------------------------------------------------------------- which properties are accepted

  /** A property of the application is good by itself. */
  predicate GoodOwn(p: Property)
    requires p != []
  {
    match p[0]
    case "Stream" => GoodStream(p)
    case "Framed" => GoodFramed(p)
    case "Basic" => |p| == 2 && NoneRepeatedIgnoringCase(Tokens(p[1]))
    case "Event" => |p| == 2 && NoneRepeated(Tokens(p[1]))
    case "Write" => |p| == 2
    case "Read" => |p| == 2 && NoneRepeatedIgnoringCase(Tokens(p[1]))
    case "Cap" => GoodCap(p)
    case _ => false
  }

  lemma {:induction false} AddKeyedOkIff(o: Own, k: PKey, p: Property)
    requires NoneRepeatedIgnoringCase(o.readHeaders)
    ensures AddKeyed(o, k, p).ok
            <==> (match k
                  case Stream => GoodStream(p)
                  case Framed => GoodFramed(p)
                  case Basic => |p| == 2 && NoneRepeatedIgnoringCase(Tokens(p[1]))
                  case EventKey => |p| == 2 && NoneRepeated(Tokens(p[1]))
                  case WriteKey => |p| == 2
                  case ReadKey => |p| == 2 && NoneRepeatedIgnoringCase(Tokens(p[1]))
                  case Cap => GoodCap(p)
                  case _ => false)
    ensures AddKeyed(o, k, p).ok ==> NoneRepeatedIgnoringCase(AddKeyed(o, k, p).own.readHeaders)
  {
    match k
    case Stream => AddStreamIff(o, p);
    case Framed => AddFramedIff(o, p);
    case WriteKey => AddWriteIff(o, p);
    case Cap => AddCapIff(o, p, Session, Request);
    case _ => AddListsIff(o, p);
  }

  lemma {:induction false} AddOwnOkIff(o: Own, p: Property)
    requires p != [] && NoneRepeatedIgnoringCase(o.readHeaders)
    ensures AddOwn(o, p).ok <==> GoodOwn(p)
    ensures AddOwn(o, p).ok ==> NoneRepeatedIgnoringCase(AddOwn(o, p).own.readHeaders)
  {
    OwnKeys(p[0]);
    AddKeyedOkIff(o, StringToKey(p[0]), p);
  }

  /** The application's own properties succeed exactly when each is good by itself. */
  lemma {:induction false} OwnPassOkIff(o: Own, reg: seq<Property>)
    requires AllKeyed(reg) && NoneRepeatedIgnoringCase(o.readHeaders)
    ensures OwnPass(o, reg).ok <==> forall i | 0 <= i < |reg| && IsOwn(reg[i]) :: GoodOwn(reg[i])
    decreases reg
  {
    if reg != [] {
      assert forall i | 1 <= i < |reg| :: reg[i] == reg[1..][i - 1];
      KeysOfServices(reg[0]);
      if IsOwn(reg[0]) {
        AddOwnOkIff(o, reg[0]);
        if GoodOwn(reg[0]) {
          OwnPassOkIff(AddOwn(o, reg[0]).own, reg[1..]);
        }
      } else {
        OwnPassOkIff(o, reg[1..]);
      }
    }
  }

  /** The pass over the application's own properties, one by one. */
  lemma {:induction false} OwnPassStep(o: Own, reg: seq<Property>)
    requires AllKeyed(reg) && reg != [] && OwnPass(o, reg).ok
    ensures if IsOwn(reg[0]) then AddOwn(o, reg[0]).ok && OwnPass(o, reg) == OwnPass(AddOwn(o, reg[0]).own, reg[1..])
            else OwnPass(o, reg) == OwnPass(o, reg[1..])
  {
    KeysOfServices(reg[0]);
  }

  // ---------------------------------------------------------------- the application

  /** A Stream property lists the type. */
  predicate SomeListsType(reg: seq<Property>, name: string) {
    exists i | 0 <= i < |reg| :: IsKeyed(reg[i], "Stream") && ListsType(reg[i], name)
  }

  lemma {:induction false} SomeListsTypeStep(reg: seq<Property>, name: string)
    requires reg != []
    ensures SomeListsType(reg, name)
            <==> (IsKeyed(reg[0], "Stream") && ListsType(reg[0], name)) || SomeListsType(reg[1..], name)
  {
    assert forall i | 1 <= i < |reg| :: reg[i] == reg[1..][i - 1];
    if i :| 0 <= i < |reg[1..]| && IsKeyed(reg[1..][i], "Stream") && ListsType(reg[1..][i], name) {
      assert IsKeyed(reg[i + 1], "Stream") && ListsType(reg[i + 1], name);
    }
  }

  predicate StreamIs(o: Own, reg: seq<Property>, r: Own) {
    && (r.stream <==> o.stream || LastAt(reg, "Stream") >= 0)
    && (r.audio <==> o.audio || SomeListsType(reg, "Audio"))
    && (r.video <==> o.video || SomeListsType(reg, "Video"))
    && (r.text <==> o.text || SomeListsType(reg, "Text"))
  }

  lemma {:induction false} StreamAfterKey(o: Own, k: PKey, p: Property)
    requires AddKeyed(o, k, p).ok
    ensures var r := AddKeyed(o, k, p).own;
      && r.stream == (o.stream || k == Stream) && r.audio == (o.audio || (k == Stream && ListsType(p, "Audio")))
      && r.video == (o.video || (k == Stream && ListsType(p, "Video")))
      && r.text == (o.text || (k == Stream && ListsType(p, "Text")))
  {
    match k
    case Stream => AddStreamIff(o, p);
    case Framed => AddFramedIff(o, p);
    case WriteKey => AddWriteIff(o, p);
    case Cap => AddCapIff(o, p, Session, Request);
    case _ => AddListsIff(o, p);
  }

  lemma {:induction false} StreamAfterOne(o: Own, p: Property)
    requires p != [] && AddOwn(o, p).ok
    ensures StreamIs(o, [p], AddOwn(o, p).own)
  {
    OwnKeys(p[0]);
    StreamAfterKey(o, StringToKey(p[0]), p);
    LastOfOne(p, "Stream");
    SomeListsTypeStep([p], "Audio");
    SomeListsTypeStep([p], "Video");
    SomeListsTypeStep([p], "Text");
  }

  lemma {:induction false} StreamStep(o: Own, reg: seq<Property>, mid: Own, r: Own)
    requires reg != [] && StreamIs(o, [reg[0]], mid) && StreamIs(mid, reg[1..], r)
    ensures StreamIs(o, reg, r)
  {
    LastOfOne(reg[0], "Stream");
    SomeListsTypeStep(reg, "Audio");
    SomeListsTypeStep(reg, "Video");
    SomeListsTypeStep(reg, "Text");
    SomeListsTypeStep([reg[0]], "Audio");
    SomeListsTypeStep([reg[0]], "Video");
    SomeListsTypeStep([reg[0]], "Text");
  }

  lemma {:induction false} NoStream(o: Own, p: Property)
    requires p != [] && !IsOwn(p)
    ensures StreamIs(o, [p], o)
  {
    LastOfOne(p, "Stream");
    SomeListsTypeStep([p], "Audio");
    SomeListsTypeStep([p], "Video");
    SomeListsTypeStep([p], "Text");
  }

  lemma {:induction false} StreamAfter(o: Own, reg: seq<Property>)
    requires AllKeyed(reg) && OwnPass(o, reg).ok
    ensures StreamIs(o, reg, OwnPass(o, reg).own)
    decreases reg
  {
    if reg != [] {
      OwnPassStep(o, reg);
      var mid := if IsOwn(reg[0]) then AddOwn(o, reg[0]).own else o;
      if IsOwn(reg[0]) {
        StreamAfterOne(o, reg[0]);
      } else {
        NoStream(o, reg[0]);
      }
      StreamAfter(mid, reg[1..]);
      StreamStep(o, reg, mid, OwnPass(o, reg).own);
    }
  }

  predicate FramedIs(o: Own, reg: seq<Property>, r: Own) {
    var k := LastAt(reg, "Framed");
    if k < 0 then
      r.framed == o.framed && r.framedTypes == o.framedTypes && r.hasMaxSize == o.hasMaxSize && r.maxSize == o.maxSize
    else
      GoodFramed(reg[k]) && r.framed && r.framedTypes == Tokens(reg[k][1]) && r.maxSize == SizeIn(reg[k])
      && (r.hasMaxSize <==> reg[k][2] != "")
  }

  lemma {:induction false} FramedAfterKey(o: Own, k: PKey, p: Property)
    requires AddKeyed(o, k, p).ok
    ensures var r := AddKeyed(o, k, p).own;
      if k == Framed then
        GoodFramed(p) && r.framed && r.framedTypes == Tokens(p[1]) && r.maxSize == SizeIn(p)
        && (r.hasMaxSize <==> p[2] != "")
      else
        r.framed == o.framed && r.framedTypes == o.framedTypes && r.hasMaxSize == o.hasMaxSize && r.maxSize == o.maxSize
  {
    match k
    case Framed => AddFramedIff(o, p);
    case Stream => AddStreamIff(o, p);
    case Cap => AddCapIff(o, p, Session, Request);
    case _ =>
  }

  lemma {:induction false} FramedAfter(o: Own, reg: seq<Property>)
    requires AllKeyed(reg) && OwnPass(o, reg).ok
    ensures FramedIs(o, reg, OwnPass(o, reg).own)
    decreases reg
  {
    if reg != [] {
      OwnPassStep(o, reg);
      if IsOwn(reg[0]) {
        OwnKeys(reg[0][0]);
        FramedAfterKey(o, StringToKey(reg[0][0]), reg[0]);
        FramedAfter(AddOwn(o, reg[0]).own, reg[1..]);
      } else {
        FramedAfter(o, reg[1..]);
      }
    }
  }

  /** The list in the last property with the key, or what was there before. */
  predicate ListIs(before: seq<string>, reg: seq<Property>, key: string, after: seq<string>) {
    var k := LastAt(reg, key);
    if k < 0 then after == before else |reg[k]| == 2 && after == Tokens(reg[k][1])
  }

  predicate ListsAre(o: Own, reg: seq<Property>, r: Own) {
    && (r.basic <==> o.basic || LastAt(reg, "Basic") >= 0)
    && ListIs(o.basicTypes, reg, "Basic", r.basicTypes) && ListIs(o.events, reg, "Event", r.events)
    && ListIs(o.writeHeaders, reg, "Write", r.writeHeaders) && ListIs(o.readHeaders, reg, "Read", r.readHeaders)
  }

  lemma {:induction false} ListsAfterKey(o: Own, k: PKey, p: Property)
    requires AddKeyed(o, k, p).ok
    ensures var r := AddKeyed(o, k, p).own;
      && r.basic == (o.basic || k == Basic)
      && (k == Basic || k == EventKey || k == WriteKey || k == ReadKey ==> |p| == 2)
      && r.basicTypes == (if k == Basic then Tokens(p[1]) else o.basicTypes)
      && r.events == (if k == EventKey then Tokens(p[1]) else o.events)
      && r.writeHeaders == (if k == WriteKey then Tokens(p[1]) else o.writeHeaders)
      && r.readHeaders == (if k == ReadKey then Tokens(p[1]) else o.readHeaders)
  {
    match k
    case Stream => AddStreamIff(o, p);
    case Framed => AddFramedIff(o, p);
    case WriteKey => AddWriteIff(o, p);
    case Cap => AddCapIff(o, p, Session, Request);
    case _ => AddListsIff(o, p);
  }

  lemma {:induction false} ListsAfterOne(o: Own, p: Property)
    requires p != [] && AddOwn(o, p).ok
    ensures ListsAre(o, [p], AddOwn(o, p).own)
  {
    OwnKeys(p[0]);
    ListsAfterKey(o, StringToKey(p[0]), p);
    LastOfOne(p, "Basic");
    LastOfOne(p, "Event");
    LastOfOne(p, "Write");
    LastOfOne(p, "Read");
  }

  lemma {:induction false} ListIsStep(before: seq<string>, reg: seq<Property>, key: string, mid: seq<string>,
                                      after: seq<string>)
    requires reg != [] && ListIs(before, [reg[0]], key, mid) && ListIs(mid, reg[1..], key, after)
    ensures ListIs(before, reg, key, after)
  {
    LastOfOne(reg[0], key);
  }

  lemma {:induction false} ListsStep(o: Own, reg: seq<Property>, mid: Own, r: Own)
    requires reg != [] && ListsAre(o, [reg[0]], mid) && ListsAre(mid, reg[1..], r)
    ensures ListsAre(o, reg, r)
  {
    ListIsStep(o.basicTypes, reg, "Basic", mid.basicTypes, r.basicTypes);
    ListIsStep(o.events, reg, "Event", mid.events, r.events);
    ListIsStep(o.writeHeaders, reg, "Write", mid.writeHeaders, r.writeHeaders);
    ListIsStep(o.readHeaders, reg, "Read", mid.readHeaders, r.readHeaders);
    LastOfOne(reg[0], "Basic");
  }

  lemma {:induction false} NoLists(o: Own, p: Property)
    requires p != [] && !IsOwn(p)
    ensures ListsAre(o, [p], o)
  {
    LastOfOne(p, "Basic");
    LastOfOne(p, "Event");
    LastOfOne(p, "Write");
    LastOfOne(p, "Read");
  }

  lemma {:induction false} ListsAfter(o: Own, reg: seq<Property>)
    requires AllKeyed(reg) && OwnPass(o, reg).ok
    ensures ListsAre(o, reg, OwnPass(o, reg).own)
    decreases reg
  {
    if reg != [] {
      OwnPassStep(o, reg);
      var mid := if IsOwn(reg[0]) then AddOwn(o, reg[0]).own else o;
      if IsOwn(reg[0]) {
        ListsAfterOne(o, reg[0]);
      } else {
        NoLists(o, reg[0]);
      }
      ListsAfter(mid, reg[1..]);
      ListsStep(o, reg, mid, OwnPass(o, reg).own);
    }
  }

  /** The fields of the Cap properties for a sector and a message, in the order of the registry. */
  function FieldsIn(reg: seq<Property>, sector: Sector, message: MessageType): seq<string> {
    if reg == [] then [] else FieldsOf(reg[0], sector, message) + FieldsIn(reg[1..], sector, message)
  }

  function FieldsOf(p: Property, sector: Sector, message: MessageType): seq<string> {
    if IsKeyed(p, "Cap") && IsCapFor(p, sector, message) then p[3..] else []
  }

  lemma {:induction false} FieldsAfterKey(o: Own, k: PKey, p: Property, sector: Sector, message: MessageType)
    requires AddKeyed(o, k, p).ok
    ensures Fields(AddKeyed(o, k, p).own.capabilities, sector, message)
         == Fields(o.capabilities, sector, message) + if k == Cap && IsCapFor(p, sector, message) then p[3..] else []
  {
    match k
    case Stream => AddStreamIff(o, p);
    case Cap => AddCapIff(o, p, sector, message);
    case _ =>
  }

  lemma {:induction false} FieldsAfterOne(o: Own, p: Property, sector: Sector, message: MessageType)
    requires p != [] && AddOwn(o, p).ok
    ensures Fields(AddOwn(o, p).own.capabilities, sector, message)
         == Fields(o.capabilities, sector, message) + FieldsOf(p, sector, message)
  {
    OwnKeys(p[0]);
    FieldsAfterKey(o, StringToKey(p[0]), p, sector, message);
  }

  lemma {:induction false} FieldsAfter(o: Own, reg: seq<Property>, sector: Sector, message: MessageType)
    requires AllKeyed(reg) && OwnPass(o, reg).ok
    ensures Fields(OwnPass(o, reg).own.capabilities, sector, message)
         == Fields(o.capabilities, sector, message) + FieldsIn(reg, sector, message)
    decreases reg
  {
    if reg != [] {
      OwnPassStep(o, reg);
      var mid := if IsOwn(reg[0]) then AddOwn(o, reg[0]).own else o;
      if IsOwn(reg[0]) {
        FieldsAfterOne(o, reg[0], sector, message);
      }
      FieldsAfter(mid, reg[1..], sector, message);
      var before, one := Fields(o.capabilities, sector, message), FieldsOf(reg[0], sector, message);
      assert Fields(mid.capabilities, sector, message) == before + one;
      AppendAssociative(before, one, FieldsIn(reg[1..], sector, message));
    }
  }

  // ---------------------------------------------------------------- the created application

  lemma {:induction false} TheOnlyOne(reg: seq<Property>, key: string, i: nat)
    requires GoodRegistry(reg) && IsSingle(key) && i < |reg| && IsKeyed(TrimmedAll(reg)[i], key)
    ensures LastAt(TrimmedAll(reg), key) == i
    ensures forall j | 0 <= j < |reg| && IsKeyed(TrimmedAll(reg)[j], key) :: j == i
  {
    GoodRegistryIff(reg);
    var t := TrimmedAll(reg);
    assert forall j | 0 <= j < |reg| :: t[j] == Trimmed(reg[j]);
  }

  const FRESH := Config(NO_PROPERTIES, [])

  lemma {:induction false} CreatedOwn(reg: seq<Property>)
    requires CreatedFrom(FRESH, reg).ok
    ensures GoodRegistry(reg) && AllKeyed(TrimmedAll(reg)) && OwnPass(NO_PROPERTIES, TrimmedAll(reg)).ok
    ensures CreatedFrom(FRESH, reg).config.own == OwnPass(NO_PROPERTIES, TrimmedAll(reg)).own
  {
    CreationComesApart(NO_PROPERTIES, reg);
  }

  /** After a successful creation the application supports stream media exactly when the registry has a Stream property,
      and audio, video and text exactly when that property lists them. */
  lemma {:induction false} CreatedStream(reg: seq<Property>)
    requires CreatedFrom(FRESH, reg).ok
    ensures var t, r := TrimmedAll(reg), CreatedFrom(FRESH, reg).config.own;
      && (r.stream <==> exists i | 0 <= i < |t| :: IsKeyed(t[i], "Stream"))
      && (!r.stream ==> !r.audio && !r.video && !r.text)
      && forall i | 0 <= i < |t| && IsKeyed(t[i], "Stream") ::
           (r.audio <==> ListsType(t[i], "Audio")) && (r.video <==> ListsType(t[i], "Video"))
           && (r.text <==> ListsType(t[i], "Text"))
  {
    CreatedOwn(reg);
    var t := TrimmedAll(reg);
    StreamAfter(NO_PROPERTIES, t);
    forall i | 0 <= i < |t| && IsKeyed(t[i], "Stream")
      ensures LastAt(t, "Stream") == i && forall j | 0 <= j < |t| && IsKeyed(t[j], "Stream") :: j == i {
      TheOnlyOne(reg, "Stream", i);
    }
  }

  /** The other media, the events and the headers are those of the one property with their key. */
  lemma {:induction false} CreatedLists(reg: seq<Property>)
    requires CreatedFrom(FRESH, reg).ok
    ensures var t, r := TrimmedAll(reg), CreatedFrom(FRESH, reg).config.own;
      FramedIs(NO_PROPERTIES, t, r) && ListsAre(NO_PROPERTIES, t, r)
    ensures forall key, i | IsSingle(key) && 0 <= i < |reg| && IsKeyed(TrimmedAll(reg)[i], key) ::
              LastAt(TrimmedAll(reg), key) == i
  {
    CreatedOwn(reg);
    FramedAfter(NO_PROPERTIES, TrimmedAll(reg));
    ListsAfter(NO_PROPERTIES, TrimmedAll(reg));
    forall key, i | IsSingle(key) && 0 <= i < |reg| && IsKeyed(TrimmedAll(reg)[i], key)
      ensures LastAt(TrimmedAll(reg), key) == i {
      TheOnlyOne(reg, key, i);
    }
  }

  lemma {:induction false} FieldsFromNothing(t: seq<Property>, sector: Sector, message: MessageType)
    requires AllKeyed(t) && OwnPass(NO_PROPERTIES, t).ok
    ensures Fields(OwnPass(NO_PROPERTIES, t).own.capabilities, sector, message) == FieldsIn(t, sector, message)
  {
    FieldsAfter(NO_PROPERTIES, t, sector, message);
    assert Fields([], sector, message) + FieldsIn(t, sector, message) == FieldsIn(t, sector, message);
  }

  /** The capabilities hold, for each sector and message, the fields of the Cap properties for them in their order. */
  lemma {:induction false} CreatedCapabilities(reg: seq<Property>, sector: Sector, message: MessageType)
    requires CreatedFrom(FRESH, reg).ok
    ensures Fields(CreatedFrom(FRESH, reg).config.own.capabilities, sector, message)
         == FieldsIn(TrimmedAll(reg), sector, message)
  {
    CreatedOwn(reg);
    FieldsFromNothing(TrimmedAll(reg), sector, message);
  }
}
