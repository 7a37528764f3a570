/** What each property of the application makes of its configuration, by the texts in it, and what a whole registry
    makes of it. */
module AppConfigMeanings {
  import opened Lists
  import opened Text
  import opened ImsProperties
  import opened CoreServices
  import opened AppConfigs
  import opened AppConfigParts
  import Q = QosProperties

  // ---------------------------------------------------------------- keys

  /** The key by its text. */
  function KeyFor(s: string): PKey {
    match s
    case "" => NoKey
    case "Stream" => Stream
    case "Framed" => Framed
    case "Basic" => Basic
    case "Event" => EventKey
    case "CoreService" => CoreService
    case "Qos" => QosKey
    case "Reg" => Reg
    case "Write" => WriteKey
    case "Read" => ReadKey
    case "Cap" => Cap
    case "Mprof" => Mprof
    case "Connection" => Connection
    case _ => Custom
  }

  lemma {:induction false} KeyAmongStep(s: string, i: nat)
    requires i < |KEYS|
    ensures KeyAmong(s, i) == if s == KEY_STRINGS[i] then KEYS[i] else KeyAmong(s, i + 1)
  {
  }

  lemma {:induction false} LateKeys(s: string)
    ensures KeyAmong(s, 6)
         == if s == "Reg" then Reg else if s == "Write" then WriteKey else if s == "Read" then ReadKey
            else if s == "Cap" then Cap else if s == "Mprof" then Mprof else if s == "Connection" then Connection
            else Custom
  {
    KeyAmongStep(s, 6);
    KeyAmongStep(s, 7);
    KeyAmongStep(s, 8);
    KeyAmongStep(s, 9);
    KeyAmongStep(s, 10);
    KeyAmongStep(s, 11);
  }

  lemma {:induction false} EarlyKeys(s: string)
    ensures KeyAmong(s, 0)
         == if s == "Stream" then Stream else if s == "Framed" then Framed else if s == "Basic" then Basic
            else if s == "Event" then EventKey else if s == "CoreService" then CoreService else if s == "Qos" then QosKey
            else KeyAmong(s, 6)
  {
    KeyAmongStep(s, 0);
    KeyAmongStep(s, 1);
    KeyAmongStep(s, 2);
    KeyAmongStep(s, 3);
    KeyAmongStep(s, 4);
    KeyAmongStep(s, 5);
  }

  lemma {:induction false} KeyIs(s: string)
    ensures StringToKey(s) == KeyFor(s)
  {
    EarlyKeys(s);
    LateKeys(s);
  }

  // ---------------------------------------------------------------- stream media

  predicate KnownType(t: string) {
    EqualsIgnoreCase(t, "Audio") || EqualsIgnoreCase(t, "Video") || EqualsIgnoreCase(t, "Text")
  }

  /** The number of types before the first unknown one. */
  function KnownTypes(ts: seq<string>): (n: nat)
    ensures n <= |ts|
    ensures forall i | 0 <= i < n :: KnownType(ts[i])
    ensures n < |ts| ==> !KnownType(ts[n])
  {
    if ts == [] || !KnownType(ts[0]) then 0 else KnownTypes(ts[1..]) + 1
  }

  /** One of the first `n` types is this one, ignoring case. */
  predicate HasType(ts: seq<string>, n: nat, name: string)
    requires n <= |ts|
  {
    exists i | 0 <= i < n :: EqualsIgnoreCase(ts[i], name)
  }

  lemma {:induction false} HasTypeStep(ts: seq<string>, n: nat, name: string)
    requires 0 < n <= |ts|
    ensures HasType(ts, n, name) <==> EqualsIgnoreCase(ts[0], name) || HasType(ts[1..], n - 1, name)
  {
    assert forall i | 1 <= i < n :: ts[i] == ts[1..][i - 1];
    if i :| 0 <= i < n - 1 && EqualsIgnoreCase(ts[1..][i], name) {
      assert EqualsIgnoreCase(ts[i + 1], name);
    }
  }

  lemma {:induction false} TypesDiffer(t: string)
    ensures !(EqualsIgnoreCase(t, "Audio") && EqualsIgnoreCase(t, "Video"))
    ensures !(EqualsIgnoreCase(t, "Audio") && EqualsIgnoreCase(t, "Text"))
    ensures !(EqualsIgnoreCase(t, "Video") && EqualsIgnoreCase(t, "Text"))
  {
    assert Lower("Audio")[0] == 'a' && Lower("Video")[0] == 'v' && Lower("Text")[0] == 't';
  }

  function WithType(o: Own, t: string): Own {
    o.(audio := o.audio || EqualsIgnoreCase(t, "Audio"), video := o.video || EqualsIgnoreCase(t, "Video"),
       text := o.text || EqualsIgnoreCase(t, "Text"))
  }

  lemma {:induction false} StreamTypesStep(o: Own, ts: seq<string>)
    requires ts != [] && KnownType(ts[0])
    ensures StreamTypes(o, ts) == StreamTypes(WithType(o, ts[0]), ts[1..])
  {
    TypesDiffer(ts[0]);
    assert WithType(o, ts[0])
        == if EqualsIgnoreCase(ts[0], "Audio") then o.(audio := true)
           else if EqualsIgnoreCase(ts[0], "Video") then o.(video := true) else o.(text := true);
  }

  /** The application with the first `n` types supported. */
  function WithTypes(o: Own, ts: seq<string>, n: nat): Own
    requires n <= |ts|
  {
    o.(audio := o.audio || HasType(ts, n, "Audio"), video := o.video || HasType(ts, n, "Video"),
       text := o.text || HasType(ts, n, "Text"))
  }

  lemma {:induction false} WithTypesStep(o: Own, ts: seq<string>, n: nat)
    requires 0 < n <= |ts|
    ensures WithTypes(WithType(o, ts[0]), ts[1..], n - 1) == WithTypes(o, ts, n)
  {
    HasTypeStep(ts, n, "Audio");
    HasTypeStep(ts, n, "Video");
    HasTypeStep(ts, n, "Text");
  }

  lemma {:induction false} WithNoTypes(o: Own, ts: seq<string>)
    ensures WithTypes(o, ts, 0) == o
  {
  }

  /** Stream types are accepted exactly when all are known. Audio is supported then exactly if it was before or is listed
      among those before the first unknown one, and so are video and text. Nothing else changes. */
  lemma {:induction false} StreamTypesAre(o: Own, ts: seq<string>)
    ensures StreamTypes(o, ts) == OwnResult(KnownTypes(ts) == |ts|, WithTypes(o, ts, KnownTypes(ts)))
    decreases ts
  {
    if ts != [] && KnownType(ts[0]) {
      StreamTypesStep(o, ts);
      StreamTypesAre(WithType(o, ts[0]), ts[1..]);
      WithTypesStep(o, ts, KnownTypes(ts));
    } else {
      WithNoTypes(o, ts);
    }
  }

  predicate NoneRepeated(ts: seq<string>) {
    forall i, j | 0 <= i < j < |ts| :: ts[i] != ts[j]
  }

  predicate NoneRepeatedIgnoringCase(ts: seq<string>) {
    forall i, j | 0 <= i < j < |ts| :: Lower(ts[i]) != Lower(ts[j])
  }

  lemma {:induction false} NoneTwiceIff(ts: seq<string>)
    ensures NoneTwice(ts, true) <==> NoneRepeated(ts)
    ensures NoneTwice(ts, false) <==> NoneRepeatedIgnoringCase(ts)
  {
  }

  predicate GoodStream(p: Property) {
    |p| == 2 && NoneRepeated(Tokens(p[1])) && forall i | 0 <= i < |Tokens(p[1])| :: KnownType(Tokens(p[1])[i])
  }

  /** A Stream property lists the type. */
  predicate ListsType(p: Property, name: string) {
    |p| == 2 && HasType(Tokens(p[1]), |Tokens(p[1])|, name)
  }

  lemma {:induction false} AddStreamIff(o: Own, p: Property)
    ensures AddStream(o, p).ok <==> GoodStream(p)
    ensures AddStream(o, p).ok ==>
      AddStream(o, p).own
      == o.(stream := true, audio := o.audio || ListsType(p, "Audio"), video := o.video || ListsType(p, "Video"),
            text := o.text || ListsType(p, "Text"))
    ensures !AddStream(o, p).ok && (|p| != 2 || !NoneRepeated(Tokens(p[1]))) ==>
      AddStream(o, p).own == o.(stream := o.stream || |p| == 2)
  {
    if |p| == 2 {
      NoneTwiceIff(Tokens(p[1]));
      StreamTypesAre(o.(stream := true), Tokens(p[1]));
    }
  }

  // ---------------------------------------------------------------- other media, events and headers

  predicate GoodFramed(p: Property) {
    |p| == 3 && NoneRepeatedIgnoringCase(Tokens(p[1])) && (p[2] == "" || Q.ToUInt32(p[2]).Number?)
  }

  function SizeIn(p: Property): nat
    requires GoodFramed(p)
  {
    if p[2] == "" then 0 else Q.ToUInt32(p[2]).n
  }

  lemma {:induction false} AddFramedIff(o: Own, p: Property)
    ensures AddFramed(o, p).ok <==> GoodFramed(p)
    ensures AddFramed(o, p).ok ==>
      AddFramed(o, p).own
      == o.(framed := true, framedTypes := Tokens(p[1]), hasMaxSize := p[2] != "", maxSize := SizeIn(p))
    ensures |p| == 3 && NoneRepeatedIgnoringCase(Tokens(p[1])) && !AddFramed(o, p).ok ==>
      AddFramed(o, p).own == o.(framed := true, framedTypes := [], maxSize := 0)
  {
    if |p| == 3 {
      NoneTwiceIff(Tokens(p[1]));
    }
  }

  lemma {:induction false} AddListsIff(o: Own, p: Property)
    ensures AddBasic(o, p).ok <==> |p| == 2 && NoneRepeatedIgnoringCase(Tokens(p[1]))
    ensures AddBasic(o, p).own
         == if |p| != 2 then o
            else o.(basicTypes := Tokens(p[1]), basic := o.basic || NoneRepeatedIgnoringCase(Tokens(p[1])))
    ensures AddEvent(o, p).ok <==> |p| == 2 && NoneRepeated(Tokens(p[1]))
    ensures AddEvent(o, p).own == if |p| != 2 then o else o.(events := Tokens(p[1]))
    ensures AddRead(o, p).ok <==> |p| == 2 && NoneRepeatedIgnoringCase(Tokens(p[1]))
    ensures AddRead(o, p).own == if |p| != 2 then o else o.(readHeaders := Tokens(p[1]))
  {
    if |p| == 2 {
      NoneTwiceIff(Tokens(p[1]));
    }
  }

  /** The writable headers are accepted by what the readable ones are. */
  lemma {:induction false} AddWriteIff(o: Own, p: Property)
    ensures AddWrite(o, p).ok <==> |p| == 2 && NoneRepeatedIgnoringCase(o.readHeaders)
    ensures AddWrite(o, p).own == if |p| != 2 then o else o.(writeHeaders := Tokens(p[1]))
  {
    NoneTwiceIff(o.readHeaders);
  }

  // ---------------------------------------------------------------- capabilities

  function SectorText(s: Sector): string {
    match s
    case Session => "Session"
    case FramedSector => "Framed"
    case StreamAudio => "StreamAudio"
    case StreamVideo => "StreamVideo"
  }

  function MessageText(m: MessageType): string {
    match m
    case Request => "Req"
    case Response => "Resp"
    case RequestResponse => "Req_Resp"
  }

  lemma {:induction false} SectorOfIff(t: string, s: Sector)
    ensures SectorOf(t) == Some(s) <==> t == SectorText(s)
  {
  }

  lemma {:induction false} MessageOfIff(t: string, m: MessageType)
    ensures MessageOf(t) == Some(m) <==> t == MessageText(m)
  {
  }

  /** An SDP field: one of the letters allowed in the sector, and an equals sign behind it. */
  predicate IsField(session: bool, f: string) {
    && |f| >= 2 && f[1] == '='
    && if session then f[0] in {'v', 'o', 's', 'i', 'u', 'e', 'p', 'c', 'b', 't', 'r', 'z', 'k', 'a'}
       else f[0] in {'m', 'i', 'c', 'b', 'k', 'a'}
  }

  lemma {:induction false} GoodSdpIff(sector: Sector, f: string)
    ensures GoodSdp(sector, f) <==> IsField(sector == Session, f)
  {
    if |f| >= 2 {
      LettersIff(f[0]);
    }
  }

  lemma {:induction false} LettersIff(c: char)
    ensures c in SESSION_TYPES <==> c in {'v', 'o', 's', 'i', 'u', 'e', 'p', 'c', 'b', 't', 'r', 'z', 'k', 'a'}
    ensures c in MEDIA_TYPES <==> c in {'m', 'i', 'c', 'b', 'k', 'a'}
  {
    var s, m := SESSION_TYPES, MEDIA_TYPES;
    assert s[0] == 'v' && s[1] == 'o' && s[2] == 's' && s[3] == 'i' && s[4] == 'u' && s[5] == 'e' && s[6] == 'p';
    assert s[7] == 'c' && s[8] == 'b' && s[9] == 't' && s[10] == 'r' && s[11] == 'z' && s[12] == 'k' && s[13] == 'a';
    assert m[0] == 'm' && m[1] == 'i' && m[2] == 'c' && m[3] == 'b' && m[4] == 'k' && m[5] == 'a';
  }

  /** The fields held for a sector and a message; for both messages, whatever the sector is. */
  function Fields(caps: seq<Capability>, sector: Sector, message: MessageType): seq<string> {
    if caps == [] then []
    else if caps[0].message == message && (message == RequestResponse || caps[0].sector == sector) then caps[0].fields
    else Fields(caps[1..], sector, message)
  }

  lemma {:induction false} FieldsAt(caps: seq<Capability>, sector: Sector, message: MessageType)
    ensures var i := IndexOfCap(caps, sector, message);
      Fields(caps, sector, message) == if i < |caps| then caps[i].fields else []
    decreases caps
  {
    if caps != [] && !SameKey(caps[0], sector, message) {
      FieldsAt(caps[1..], sector, message);
    }
  }

  predicate SharesKey(s: Sector, m: MessageType, sector: Sector, message: MessageType) {
    m == message && (message == RequestResponse || s == sector)
  }

  lemma {:induction false} IndexUnlessShared(caps: seq<Capability>, s: Sector, m: MessageType, sector: Sector,
                                             message: MessageType)
    ensures var i, j := IndexOfCap(caps, s, m), IndexOfCap(caps, sector, message);
      if SharesKey(s, m, sector, message) then i == j else i == j ==> i == |caps|
  {
    var i, j := IndexOfCap(caps, s, m), IndexOfCap(caps, sector, message);
    if SharesKey(s, m, sector, message) {
      assert i < |caps| ==> SameKey(caps[i], sector, message);
      assert j < |caps| ==> SameKey(caps[j], s, m);
    }
  }

  lemma {:induction false} IndexIs(caps: seq<Capability>, sector: Sector, message: MessageType, i: nat)
    requires i <= |caps| && forall j | 0 <= j < i :: !SameKey(caps[j], sector, message)
    requires i < |caps| ==> SameKey(caps[i], sector, message)
    ensures IndexOfCap(caps, sector, message) == i
  {
  }

  /** Another list of fields leaves every capability in its place. */
  lemma {:induction false} IndexKept(caps: seq<Capability>, i: nat, fields: seq<string>, sector: Sector,
                                     message: MessageType)
    requires i < |caps|
    ensures IndexOfCap(caps[i := caps[i].(fields := fields)], sector, message) == IndexOfCap(caps, sector, message)
  {
    var r := caps[i := caps[i].(fields := fields)];
    assert forall n | 0 <= n < |caps| :: SameKey(r[n], sector, message) <==> SameKey(caps[n], sector, message);
    IndexIs(r, sector, message, IndexOfCap(caps, sector, message));
  }

  lemma {:induction false} IndexAppended(caps: seq<Capability>, c: Capability, sector: Sector, message: MessageType)
    ensures var j := IndexOfCap(caps, sector, message);
      IndexOfCap(caps + [c], sector, message) == if j == |caps| && !SameKey(c, sector, message) then j + 1 else j
  {
    var j, r := IndexOfCap(caps, sector, message), caps + [c];
    assert forall n | 0 <= n < |caps| :: r[n] == caps[n];
    IndexIs(r, sector, message, if j == |caps| && !SameKey(c, sector, message) then j + 1 else j);
  }

  /** One field is added to those of its own key, and the others keep theirs. */
  lemma {:induction false} FieldsWithSdp(caps: seq<Capability>, s: Sector, m: MessageType, f: string, sector: Sector,
                                         message: MessageType)
    ensures Fields(WithSdp(caps, s, m, f), sector, message)
         == Fields(caps, sector, message) + if SharesKey(s, m, sector, message) then [f] else []
  {
    FieldsAt(caps, sector, message);
    FieldsAt(WithSdp(caps, s, m, f), sector, message);
    IndexUnlessShared(caps, s, m, sector, message);
    var i := IndexOfCap(caps, s, m);
    if i < |caps| {
      IndexKept(caps, i, caps[i].fields + [f], sector, message);
    } else {
      IndexAppended(caps, Capability(s, m, [f]), sector, message);
    }
  }

  lemma {:induction false} LastUpdateStays(o: Own, c: seq<Capability>, d: seq<Capability>)
    ensures o.(capabilities := c).(capabilities := d) == o.(capabilities := d)
  {
  }

  lemma {:induction false} SdpsKeepTheRest(o: Own, sector: Sector, message: MessageType, fs: seq<string>)
    ensures AddSdps(o, sector, message, fs).own
         == o.(capabilities := AddSdps(o, sector, message, fs).own.capabilities)
    decreases fs
  {
    if fs != [] && GoodSdp(sector, fs[0]) {
      var next := WithSdp(o.capabilities, sector, message, fs[0]);
      SdpsKeepTheRest(o.(capabilities := next), sector, message, fs[1..]);
      LastUpdateStays(o, next, AddSdps(o.(capabilities := next), sector, message, fs[1..]).own.capabilities);
    }
  }

  predicate AllFields(session: bool, fs: seq<string>) {
    forall i | 0 <= i < |fs| :: IsField(session, fs[i])
  }

  lemma {:induction false} AddSdpsIff(o: Own, s: Sector, m: MessageType, fs: seq<string>, sector: Sector,
                                      message: MessageType)
    ensures var r := AddSdps(o, s, m, fs);
      && (r.ok <==> AllFields(s == Session, fs))
      && (r.ok ==> Fields(r.own.capabilities, sector, message)
                   == Fields(o.capabilities, sector, message) + if SharesKey(s, m, sector, message) then fs else [])
    decreases fs
  {
    if fs != [] {
      GoodSdpIff(s, fs[0]);
      AllFieldsStep(s == Session, fs);
      if GoodSdp(s, fs[0]) {
        var next := WithSdp(o.capabilities, s, m, fs[0]);
        AddSdpsIff(o.(capabilities := next), s, m, fs[1..], sector, message);
        FieldsWithSdp(o.capabilities, s, m, fs[0], sector, message);
        assert fs == [fs[0]] + fs[1..];
        AppendAssociative(Fields(o.capabilities, sector, message), [fs[0]], fs[1..]);
      }
    }
  }

  lemma {:induction false} AllFieldsStep(session: bool, fs: seq<string>)
    requires fs != []
    ensures AllFields(session, fs) <==> IsField(session, fs[0]) && AllFields(session, fs[1..])
  {
    assert forall i | 1 <= i < |fs| :: fs[i] == fs[1..][i - 1];
  }

  predicate GoodCap(p: Property) {
    && |p| >= 3 && p[1] in {"Session", "Framed", "StreamAudio", "StreamVideo"} && p[2] in {"Req", "Resp", "Req_Resp"}
    && AllFields(p[1] == "Session", p[3..])
  }

  /** A Cap property is for this sector and message. */
  predicate IsCapFor(p: Property, sector: Sector, message: MessageType) {
    |p| >= 3 && p[2] == MessageText(message) && (message == RequestResponse || p[1] == SectorText(sector))
  }

  /** A Cap property is accepted exactly when its sector, its message and all fields are known; then its fields are added
      to those of its own key, and the others keep theirs. */
  lemma {:induction false} AddCapIff(o: Own, p: Property, sector: Sector, message: MessageType)
    ensures var r := AddCap(o, p);
      && (r.ok <==> GoodCap(p)) && r.own == o.(capabilities := r.own.capabilities)
      && (r.ok ==> Fields(r.own.capabilities, sector, message)
                   == Fields(o.capabilities, sector, message) + if IsCapFor(p, sector, message) then p[3..] else [])
  {
    if |p| >= 3 && SectorOf(p[1]).Some? && MessageOf(p[2]).Some? {
      var s, m := SectorOf(p[1]).value, MessageOf(p[2]).value;
      SdpsKeepTheRest(o, s, m, p[3..]);
      AddSdpsIff(o, s, m, p[3..], sector, message);
      SectorOfIff(p[1], s);
      MessageOfIff(p[2], m);
      SectorOfIff(p[1], sector);
      MessageOfIff(p[2], message);
    }
  }
}
