/** The JSON field mappings of mood rooms: the `Codable` conformance of the
    client's `MoodRoom` (text colour as a string, optional session token) and
    of the wire type `NetworkMoodRoom` (which also accepts the token nested
    as `session.token`), and the conversions between the wire type and the
    client type that fetching and posting perform.

    A JSON object is a map from keys to values. Dates are carried as
    integer seconds and identifiers as strings; the ISO-8601 text of dates
    and the syntax check of UUIDs are outside the model. Reading a key
    follows the keyed decoding container: `decode` fails on a missing key,
    on null and on a value of another type; `decodeIfPresent` reads a
    missing key or null as absent. */
module RoomCodec {
  import opened Text
  import opened MoodRooms

  datatype Json =
    | JString(s: string)
    | JInt(i: int)
    | JNull
    | JObject(fields: map<string, Json>)
    | JBool(b: bool)

  type Object = map<string, Json>

  datatype DecodeError = KeyNotFound(key: string) | ValueNotFound(key: string) | TypeMismatch(key: string)

  datatype Result<T> = Ok(value: T) | Err(error: DecodeError)

  // ---------------------------------------------------------------------
  // The keyed container

  function DecodeString(o: Object, key: string): (r: Result<string>)
    ensures r.Ok? <==> key in o && o[key].JString?
    ensures r.Ok? ==> r.value == o[key].s
  {
    if key !in o then Err(KeyNotFound(key))
    else match o[key]
      case JString(s) => Ok(s)
      case JNull => Err(ValueNotFound(key))
      case _ => Err(TypeMismatch(key))
  }

  function DecodeInt(o: Object, key: string): (r: Result<int>)
    ensures r.Ok? <==> key in o && o[key].JInt?
    ensures r.Ok? ==> r.value == o[key].i
  {
    if key !in o then Err(KeyNotFound(key))
    else match o[key]
      case JInt(i) => Ok(i)
      case JNull => Err(ValueNotFound(key))
      case _ => Err(TypeMismatch(key))
  }

  /** `decodeIfPresent(String.self, forKey:)`. */
  function DecodeStringIfPresent(o: Object, key: string): (r: Result<Option<string>>)
    ensures r == Ok(None) <==> key !in o || o[key] == JNull
    ensures r.Ok? && r.value.Some? <==> key in o && o[key].JString?
    ensures r.Ok? && r.value.Some? ==> r.value.value == o[key].s
  {
    if key !in o then Ok(None)
    else match o[key]
      case JString(s) => Ok(Some(s))
      case JNull => Ok(None)
      case _ => Err(TypeMismatch(key))
  }

  /** `encodeIfPresent`: no key at all for an absent value. */
  function EncodeIfPresent(o: Object, key: string, v: Option<string>): (r: Object)
    ensures v.None? ==> r == o
    ensures v.Some? ==> r == o[key := JString(v.value)]
  {
    if v.Some? then o[key := JString(v.value)] else o
  }

  // ---------------------------------------------------------------------
  // The fields every mood room carries

  /** id, name, schedule, background, startTime, createdAt, durationMinutes. */
  datatype Core = Core(id: string, name: string, schedule: string, background: string,
                       startTime: int, createdAt: int, durationMinutes: int)

  /** The four fields both initialisers decode before the text colour. */
  datatype Head = Head(id: string, name: string, schedule: string, background: string)

  /** The three fields they decode after it. */
  datatype Tail = Tail(startTime: int, createdAt: int, durationMinutes: int)

  function DecodeHead(o: Object): (r: Result<Head>)
    ensures r.Ok? <==>
      && DecodeString(o, "id").Ok? && DecodeString(o, "name").Ok?
      && DecodeString(o, "schedule").Ok? && DecodeString(o, "background").Ok?
    ensures r.Ok? ==> r.value == Head(o["id"].s, o["name"].s, o["schedule"].s, o["background"].s)
  {
    var id := DecodeString(o, "id");
    if id.Err? then Err(id.error) else
    var name := DecodeString(o, "name");
    if name.Err? then Err(name.error) else
    var schedule := DecodeString(o, "schedule");
    if schedule.Err? then Err(schedule.error) else
    var background := DecodeString(o, "background");
    if background.Err? then Err(background.error) else
    Ok(Head(id.value, name.value, schedule.value, background.value))
  }

  function DecodeTail(o: Object): (r: Result<Tail>)
    ensures r.Ok? <==>
      DecodeInt(o, "startTime").Ok? && DecodeInt(o, "createdAt").Ok? && DecodeInt(o, "durationMinutes").Ok?
    ensures r.Ok? ==> r.value == Tail(o["startTime"].i, o["createdAt"].i, o["durationMinutes"].i)
  {
    var startTime := DecodeInt(o, "startTime");
    if startTime.Err? then Err(startTime.error) else
    var createdAt := DecodeInt(o, "createdAt");
    if createdAt.Err? then Err(createdAt.error) else
    var duration := DecodeInt(o, "durationMinutes");
    if duration.Err? then Err(duration.error) else
    Ok(Tail(startTime.value, createdAt.value, duration.value))
  }

  function CoreFrom(h: Head, t: Tail): Core {
    Core(h.id, h.name, h.schedule, h.background, t.startTime, t.createdAt, t.durationMinutes)
  }

  /** The seven required fields, when all of them decode. */
  function DecodeCore(o: Object): (r: Result<Core>)
    ensures r.Ok? <==> DecodeHead(o).Ok? && DecodeTail(o).Ok?
    ensures r.Ok? ==> r.value == CoreFrom(DecodeHead(o).value, DecodeTail(o).value)
  {
    var head := DecodeHead(o);
    if head.Err? then Err(head.error) else
    var tail := DecodeTail(o);
    if tail.Err? then Err(tail.error) else
    Ok(CoreFrom(head.value, tail.value))
  }

  /** The object every encoder starts from: the seven required fields and
      nothing else. */
  function EncodeCore(c: Core): (o: Object)
    ensures o.Keys == {"id", "name", "schedule", "background", "startTime", "createdAt", "durationMinutes"}
    ensures DecodeCore(o) == Ok(c)
  {
    var o := map["id" := JString(c.id), "name" := JString(c.name), "schedule" := JString(c.schedule),
                 "background" := JString(c.background), "startTime" := JInt(c.startTime),
                 "createdAt" := JInt(c.createdAt), "durationMinutes" := JInt(c.durationMinutes)];
    assert "id" in o && "name" in o && "schedule" in o && "background" in o;
    assert "startTime" in o && "createdAt" in o && "durationMinutes" in o;
    o
  }

  /** The core fields read back from any object that extends their encoding. */
  lemma DecodeEncodeCore(c: Core, o: Object)
    requires forall k :: k in EncodeCore(c) ==> k in o && o[k] == EncodeCore(c)[k]
    ensures DecodeCore(o) == Ok(c)
  {
    var e := EncodeCore(c);
    assert "id" in e && "name" in e && "schedule" in e && "background" in e;
    assert "startTime" in e && "createdAt" in e && "durationMinutes" in e;
  }

  // ---------------------------------------------------------------------
  // The client's MoodRoom (ios-app/Luceam)

  /** The colour a text-colour string stands for: white if it is "white" in
      any letter case, black otherwise. */
  function ColorFromString(s: string): (c: Color)
    ensures c == White <==> Lower(s) == "white"
    ensures c != White ==> c == Black
  {
    if Lower(s) == "white" then White else Black
  }

  function ColorToString(c: Color): (s: string)
    ensures s == "white" <==> c == White
    ensures s != "white" ==> s == "black"
  {
    if c == White then "white" else "black"
  }

  /** What a colour is after it has been through its string: white stays
      white, every other colour becomes black. */
  function Normalized(c: Color): Color {
    if c == White then White else Black
  }

  lemma ColorRoundTrip(c: Color)
    ensures ColorFromString(ColorToString(c)) == Normalized(c)
    ensures ColorToString(ColorFromString(ColorToString(c))) == ColorToString(c)
  {
    assert Lower("black") != "white" by {
      assert Lower("black")[0] == 'b';
    }
    assert Lower("white") == "white";
  }

  function CoreOf(r: MoodRoom): Core {
    Core(r.id, r.name, r.schedule, r.background, r.startTime, r.createdAt, r.durationMinutes)
  }

  function WithCore(c: Core, textColor: Color, token: Option<string>): MoodRoom {
    MoodRoom(c.id, c.name, c.schedule, c.background, textColor, c.startTime, c.createdAt,
             c.durationMinutes, token)
  }

  /** `MoodRoom.init(from:)`: a missing or null text colour reads as
      "black". The fields are read in the order the initialiser reads them,
      so the first field that fails decides the error. */
  function DecodeRoom(o: Object): (r: Result<MoodRoom>)
    ensures r.Ok? <==>
      DecodeCore(o).Ok? && DecodeStringIfPresent(o, "textColor").Ok? && DecodeStringIfPresent(o, "sessionToken").Ok?
    ensures r.Ok? ==> CoreOf(r.value) == DecodeCore(o).value
    ensures r.Ok? ==> r.value.sessionToken == DecodeStringIfPresent(o, "sessionToken").value
    ensures r.Ok? ==> r.value.textColor == (if "textColor" in o && o["textColor"].JString?
                                            then ColorFromString(o["textColor"].s) else Black)
  {
    var head := DecodeHead(o);
    if head.Err? then Err(head.error) else
    var color := DecodeStringIfPresent(o, "textColor");
    if color.Err? then Err(color.error) else
    var colorName := if color.value.Some? then color.value.value else "black";
    var tail := DecodeTail(o);
    if tail.Err? then Err(tail.error) else
    var token := DecodeStringIfPresent(o, "sessionToken");
    if token.Err? then Err(token.error) else
    BlackName();
    Ok(WithCore(CoreFrom(head.value, tail.value), ColorFromString(colorName), token.value))
  }

  lemma BlackName()
    ensures ColorFromString("black") == Black
  {
    assert Lower("black")[0] == 'b';
  }

  /** A text colour of the wrong type is reported before any of the later
      fields is looked at, even a missing one. */
  lemma ColorCheckedBeforeTimes(o: Object)
    requires DecodeHead(o).Ok?
    requires "textColor" in o && !o["textColor"].JString? && !o["textColor"].JNull?
    ensures DecodeRoom(o) == Err(TypeMismatch("textColor"))
    ensures DecodeNetwork(o) == Err(TypeMismatch("textColor"))
  {
  }

  /** `MoodRoom.encode(to:)`. */
  function EncodeRoom(r: MoodRoom): (o: Object)
    ensures "sessionToken" in o <==> r.sessionToken.Some?
    ensures "textColor" in o && o["textColor"] == JString(ColorToString(r.textColor))
  {
    var o := EncodeCore(CoreOf(r))["textColor" := JString(ColorToString(r.textColor))];
    EncodeIfPresent(o, "sessionToken", r.sessionToken)
  }

  /** Decoding an encoded room gives the room back, with its colour
      normalised to white or black; the session token is kept exactly. */
  lemma RoomRoundTrip(r: MoodRoom)
    ensures DecodeRoom(EncodeRoom(r)) == Ok(r.(textColor := Normalized(r.textColor)))
  {
    var o := EncodeRoom(r);
    DecodeEncodeCore(CoreOf(r), o);
    ColorRoundTrip(r.textColor);
  }

  /** A room without a text colour is black; a colour other than "white"
      (in any letter case) is black too. */
  lemma MissingColorIsBlack(o: Object)
    requires DecodeRoom(o).Ok?
    requires "textColor" !in o || o["textColor"] == JNull
    ensures DecodeRoom(o).value.textColor == Black
  {
    assert Lower("black")[0] == 'b';
  }

  // ---------------------------------------------------------------------
  // The wire type NetworkMoodRoom (ios-app/Luma)

  datatype NetworkMoodRoom = NetworkMoodRoom(core: Core, textColor: string, sessionToken: Option<string>)

  /** The session token of a fetched room: a top-level "sessionToken" string
      wins; failing that, a "session" key (even a null one) must hold an
      object, whose optional "token" is taken; otherwise there is none. */
  function DecodeToken(o: Object): (r: Result<Option<string>>)
    ensures "sessionToken" in o && o["sessionToken"].JString? ==> r == Ok(Some(o["sessionToken"].s))
    ensures ("sessionToken" !in o || o["sessionToken"] == JNull) && "session" !in o ==> r == Ok(None)
    ensures r.Ok? && r.value.Some? ==>
              ("sessionToken" in o && o["sessionToken"] == JString(r.value.value)) ||
              ("session" in o && o["session"].JObject? && "token" in o["session"].fields &&
               o["session"].fields["token"] == JString(r.value.value))
  {
    var top := DecodeStringIfPresent(o, "sessionToken");
    if top.Err? then Err(top.error)
    else if top.value.Some? then top
    else if "session" in o then
      match o["session"]
      case JObject(nested) => DecodeStringIfPresent(nested, "token")
      case JNull => Err(ValueNotFound("session"))
      case _ => Err(TypeMismatch("session"))
    else Ok(None)
  }

  /** `NetworkMoodRoom.init(from:)`, where the text colour is required. */
  function DecodeNetwork(o: Object): (r: Result<NetworkMoodRoom>)
    ensures r.Ok? <==> DecodeCore(o).Ok? && DecodeString(o, "textColor").Ok? && DecodeToken(o).Ok?
    ensures r.Ok? ==> r.value == NetworkMoodRoom(DecodeCore(o).value, o["textColor"].s, DecodeToken(o).value)
  {
    var head := DecodeHead(o);
    if head.Err? then Err(head.error) else
    var color := DecodeString(o, "textColor");
    if color.Err? then Err(color.error) else
    var tail := DecodeTail(o);
    if tail.Err? then Err(tail.error) else
    var token := DecodeToken(o);
    if token.Err? then Err(token.error) else
    Ok(NetworkMoodRoom(CoreFrom(head.value, tail.value), color.value, token.value))
  }

  /** Never writes "session"; writes "sessionToken" only for a present token. */
  function EncodeNetwork(n: NetworkMoodRoom): (o: Object)
    ensures "session" !in o
    ensures "sessionToken" in o <==> n.sessionToken.Some?
  {
    EncodeIfPresent(EncodeCore(n.core)["textColor" := JString(n.textColor)], "sessionToken", n.sessionToken)
  }

  /** The precedence of the session token, for an object whose other
      fields decode. */
  lemma TokenPrecedence(o: Object)
    requires DecodeCore(o).Ok? && DecodeString(o, "textColor").Ok?
    ensures "sessionToken" in o && o["sessionToken"].JString? ==>
              DecodeNetwork(o).Ok? && DecodeNetwork(o).value.sessionToken == Some(o["sessionToken"].s)
    ensures ("sessionToken" !in o || o["sessionToken"] == JNull) && "session" in o && o["session"].JObject? ==>
              DecodeNetwork(o) == (var t := DecodeStringIfPresent(o["session"].fields, "token");
                                   if t.Ok? then Ok(NetworkMoodRoom(DecodeCore(o).value, o["textColor"].s, t.value))
                                   else Err(t.error))
    ensures ("sessionToken" !in o || o["sessionToken"] == JNull) && "session" !in o ==>
              DecodeNetwork(o).Ok? && DecodeNetwork(o).value.sessionToken == None
    ensures ("sessionToken" !in o || o["sessionToken"] == JNull) && "session" in o && !o["session"].JObject? ==>
              DecodeNetwork(o).Err?
  {
  }

  /** Decoding an encoded wire room gives every field back. */
  lemma NetworkRoundTrip(n: NetworkMoodRoom)
    ensures DecodeNetwork(EncodeNetwork(n)) == Ok(n)
  {
    var o := EncodeNetwork(n);
    DecodeEncodeCore(n.core, o);
  }

  /** The mapping of `fetchRooms` and of the reply to `postRoom`. */
  function FromNetwork(n: NetworkMoodRoom): (r: MoodRoom)
    ensures r.textColor == White <==> Lower(n.textColor) == "white"
    ensures r.textColor == White || r.textColor == Black
    ensures CoreOf(r) == n.core && r.sessionToken == n.sessionToken
  {
    WithCore(n.core, ColorFromString(n.textColor), n.sessionToken)
  }

  /** The request body of `postRoom`: white or black, and no session token. */
  function ToNetwork(r: MoodRoom): (n: NetworkMoodRoom)
    ensures n.textColor == (if r.textColor == White then "white" else "black")
    ensures n.sessionToken == None && n.core == CoreOf(r)
  {
    NetworkMoodRoom(CoreOf(r), ColorToString(r.textColor), None)
  }

  /** A posted room the server echoes back unchanged is the room, with a
      normalised colour and without a session token. */
  lemma PostEchoRoundTrip(r: MoodRoom)
    ensures DecodeNetwork(EncodeNetwork(ToNetwork(r))).Ok?
    ensures FromNetwork(DecodeNetwork(EncodeNetwork(ToNetwork(r))).value) ==
              r.(textColor := Normalized(r.textColor), sessionToken := None)
  {
    NetworkRoundTrip(ToNetwork(r));
    ColorRoundTrip(r.textColor);
  }
}
