/** The configuration types shared with the UI: the node mode, the editable
    JSON5 text of a configuration, and the validated configuration JSON. */
module TsConfig {
  import opened Prelude

  // ---------------------------------------------------------------------------
  // JSON values (serde_json's `Value`)
  // ---------------------------------------------------------------------------

  /** serde_json keeps a number as a non-negative `u64`, a negative `i64` or
      an `f64`; floats are kept here only as their text. */
  datatype Number =
    | PosInt(u: U64)
    | NegInt(i: NegI64)
    | Float(text: string)

  /** The values serde_json stores as a negative integer */
  type NegI64 = x: int | -0x8000_0000_0000_0000 <= x < 0 witness -1

  datatype Json =
    | Null
    | Bool(b: bool)
    | Num(n: Number)
    | Str(s: string)
    | Arr(items: seq<Json>)
    | Obj(fields: map<string, Json>)

  /** `Value::get` with a string key: only an object has fields. */
  function Get(j: Json, key: string): (r: Option<Json>)
    ensures r.Some? <==> j.Obj? && key in j.fields
    ensures r.Some? ==> r.value == j.fields[key]
  {
    if j.Obj? && key in j.fields then Some(j.fields[key]) else None
  }

  /** `Value::as_u64`: only a non-negative integer number is a `u64`. */
  function AsU64(j: Json): (r: Option<U64>)
    ensures r.Some? <==> j.Num? && j.n.PosInt?
    ensures r.Some? ==> j == Num(PosInt(r.value))
  {
    if j.Num? && j.n.PosInt? then Some(j.n.u) else None
  }

  // ---------------------------------------------------------------------------
  // zenoh and serde, as far as this core relies on them
  // ---------------------------------------------------------------------------

  /** zenoh's own `Config`; its contents are never inspected here. */
  type ZenohConfig

  /** The operations of zenoh and serde that this core calls but does not own. */
  datatype Serde = Serde(
    // zenoh::config::Config::default()
    defaultConfig: ZenohConfig,
    // serde_json::from_str::<Config>, with the parser's message on failure
    fromStr: string -> Result<ZenohConfig, string>,
    // serde_json::to_value(&Config)
    toValue: ZenohConfig -> Result<Json, string>,
    // serde_json::from_value::<Config>: zenoh's validation of a JSON value
    fromValue: Json -> Result<ZenohConfig, string>)

  // ---------------------------------------------------------------------------
  // ZenohMode
  // ---------------------------------------------------------------------------

  datatype ZenohMode = Peer | Router | Client

  /** zenoh's `WhatAmI` */
  datatype WhatAmI = Router | Peer | Client

  /** The serialized name of a mode (`rename_all = "lowercase"`). */
  function ModeName(m: ZenohMode): string {
    match m
    case Peer => "peer"
    case Router => "router"
    case Client => "client"
  }

  /** zenoh's name of a `WhatAmI` */
  function WhatAmIName(w: WhatAmI): string {
    match w
    case Router => "router"
    case Peer => "peer"
    case Client => "client"
  }

  /** zenoh's `Default for WhatAmI` */
  function WhatAmIDefault(): WhatAmI {
    WhatAmI.Peer
  }

  /** `From<WhatAmI> for ZenohMode` */
  function FromWhatAmI(w: WhatAmI): (m: ZenohMode)
    ensures ModeName(m) == WhatAmIName(w)
  {
    match w
    case Peer => ZenohMode.Peer
    case Router => ZenohMode.Router
    case Client => ZenohMode.Client
  }

  /** `From<ZenohMode> for WhatAmI` */
  function ToWhatAmI(m: ZenohMode): (w: WhatAmI)
    ensures WhatAmIName(w) == ModeName(m)
  {
    match m
    case Peer => WhatAmI.Peer
    case Router => WhatAmI.Router
    case Client => WhatAmI.Client
  }

  /** `Default for ZenohMode`: the mode of zenoh's default `WhatAmI`. */
  function DefaultMode(): (m: ZenohMode)
    ensures ToWhatAmI(m) == WhatAmIDefault()
  {
    FromWhatAmI(WhatAmIDefault())
  }

  /** The two conversions are inverse to each other. */
  lemma ModeRoundTrip(m: ZenohMode, w: WhatAmI)
    ensures FromWhatAmI(ToWhatAmI(m)) == m
    ensures ToWhatAmI(FromWhatAmI(w)) == w
  {
  }

  // ---------------------------------------------------------------------------
  // Whitespace trimming (Rust's `str::trim`)
  // ---------------------------------------------------------------------------

  /** Rust's `char::is_whitespace`: the Unicode White_Space property. */
  predicate IsWhitespace(c: char) {
    || ('\t' <= c <= '\r')
    || c == ' '
    || c == '\U{0085}'
    || c == '\U{00A0}'
    || c == '\U{1680}'
    || ('\U{2000}' <= c <= '\U{200A}')
    || c == '\U{2028}'
    || c == '\U{2029}'
    || c == '\U{202F}'
    || c == '\U{205F}'
    || c == '\U{3000}'
  }

  ghost predicate AllWhitespace(s: string) {
    forall k :: 0 <= k < |s| ==> IsWhitespace(s[k])
  }

  /** Drops the leading whitespace: the result is the suffix of `s` that
      starts at its first non-whitespace character. */
  function TrimStart(s: string): (r: string)
    ensures |r| <= |s| && r == s[|s| - |r|..]
    ensures AllWhitespace(s[..|s| - |r|])
    ensures r == [] || !IsWhitespace(r[0])
  {
    if |s| > 0 && IsWhitespace(s[0]) then
      var r := TrimStart(s[1..]);
      assert s[1..][|s| - 1 - |r|..] == s[|s| - |r|..];
      var dropped := s[..|s| - |r|];
      assert AllWhitespace(dropped) by {
        forall k | 0 <= k < |dropped|
          ensures IsWhitespace(dropped[k])
        {
          if 0 < k {
            assert dropped[k] == s[1..][..|s| - 1 - |r|][k - 1];
          }
        }
      }
      r
    else
      s
  }

  /** Drops the trailing whitespace: the result is the prefix of `s` that
      ends at its last non-whitespace character. */
  function TrimEnd(s: string): (r: string)
    ensures |r| <= |s| && r == s[..|r|]
    ensures AllWhitespace(s[|r|..])
    ensures r == [] || !IsWhitespace(r[|r| - 1])
  {
    if |s| > 0 && IsWhitespace(s[|s| - 1]) then
      var r := TrimEnd(s[..|s| - 1]);
      assert s[..|s| - 1][..|r|] == s[..|r|];
      assert s[|r|..] == s[..|s| - 1][|r|..] + [s[|s| - 1]];
      r
    else
      s
  }

  /** `r` is `s` with only whitespace before position `i` and after `r`. */
  ghost predicate SurroundedBy(s: string, i: int, r: string) {
    && 0 <= i <= |s| - |r|
    && s[i..i + |r|] == r
    && AllWhitespace(s[..i])
    && AllWhitespace(s[i + |r|..])
  }

  /** Rust's `str::trim`: the part of `s` left when the whitespace at both
      ends is removed. */
  function Trim(s: string): (r: string)
    ensures exists i :: SurroundedBy(s, i, r)
    ensures r == [] || (!IsWhitespace(r[0]) && !IsWhitespace(r[|r| - 1]))
  {
    var t := TrimStart(s);
    var r := TrimEnd(t);
    var i := |s| - |t|;
    assert s[i..i + |r|] == r;
    assert s[i + |r|..] == t[|r|..];
    assert SurroundedBy(s, i, r);
    r
  }

  lemma {:induction false} TrimStartSkipsWhitespace(pre: string, rest: string)
    requires AllWhitespace(pre)
    requires rest == [] || !IsWhitespace(rest[0])
    ensures TrimStart(pre + rest) == rest
  {
    if pre != [] {
      assert (pre + rest)[1..] == pre[1..] + rest;
      TrimStartSkipsWhitespace(pre[1..], rest);
    }
  }

  lemma {:induction false} TrimEndSkipsWhitespace(rest: string, post: string)
    requires AllWhitespace(post)
    requires rest == [] || !IsWhitespace(rest[|rest| - 1])
    ensures TrimEnd(rest + post) == rest
  {
    if post != [] {
      var n := |post| - 1;
      assert (rest + post)[..|rest + post| - 1] == rest + post[..n];
      TrimEndSkipsWhitespace(rest, post[..n]);
    }
  }

  /** Trimming removes exactly the whitespace around a text that neither
      starts nor ends with whitespace. */
  lemma TrimSurrounded(pre: string, mid: string, post: string)
    requires AllWhitespace(pre) && AllWhitespace(post)
    requires mid == [] || (!IsWhitespace(mid[0]) && !IsWhitespace(mid[|mid| - 1]))
    ensures Trim(pre + mid + post) == mid
  {
    if mid == [] {
      assert pre + mid + post == pre + post;
      assert AllWhitespace(pre + post);
      var t := TrimStart(pre + post);
      assert t == [];
      TrimEndSkipsWhitespace([], []);
    } else {
      assert pre + mid + post == pre + (mid + post);
      TrimStartSkipsWhitespace(pre, mid + post);
      TrimEndSkipsWhitespace(mid, post);
    }
  }

  // ---------------------------------------------------------------------------
  // ZenohConfigEdit
  // ---------------------------------------------------------------------------

  /** The JSON5 text of a configuration as the user edits it. */
  datatype ZenohConfigEdit = ZenohConfigEdit(content: string)

  /** `Default for ZenohConfigEdit`: the empty object. */
  function DefaultEdit(): (e: ZenohConfigEdit)
    ensures Trim(e.content) == "{}"
  {
    TrimSurrounded([], "{}", []);
    assert [] + "{}" + [] == "{}";
    ZenohConfigEdit("{}")
  }

  /** `ZenohConfigEdit::to_config`: blank content and `{}` are the default
      configuration without parsing; any other content is parsed as it is
      (untrimmed) by serde. */
  function ToConfig(edit: ZenohConfigEdit, serde: Serde): (r: Result<ZenohConfig, string>)
    ensures Trim(edit.content) == "" || Trim(edit.content) == "{}" ==> r == Ok(serde.defaultConfig)
    ensures Trim(edit.content) != "" && Trim(edit.content) != "{}" ==>
      && (r.Ok? <==> serde.fromStr(edit.content).Ok?)
      && (r.Ok? ==> r == serde.fromStr(edit.content))
  {
    var trimmed := Trim(edit.content);
    if trimmed == "" || trimmed == "{}" then
      Ok(serde.defaultConfig)
    else
      match serde.fromStr(edit.content)
      case Ok(config) => Ok(config)
      case Err(e) => Err("Invalid JSON config: " + e)
  }

  /** Content made only of whitespace gives the default configuration,
      whatever the parser would have said. */
  lemma ToConfigBlank(content: string, serde: Serde)
    requires AllWhitespace(content)
    ensures ToConfig(ZenohConfigEdit(content), serde) == Ok(serde.defaultConfig)
  {
    TrimSurrounded(content, [], []);
    assert content + [] + [] == content;
  }

  /** `{}` surrounded by whitespace gives the default configuration. */
  lemma ToConfigEmptyObject(pre: string, post: string, serde: Serde)
    requires AllWhitespace(pre) && AllWhitespace(post)
    ensures ToConfig(ZenohConfigEdit(pre + "{}" + post), serde) == Ok(serde.defaultConfig)
  {
    TrimSurrounded(pre, "{}", post);
  }

  /** The default edit yields the default configuration. */
  lemma DefaultEditGivesDefaultConfig(serde: Serde)
    ensures ToConfig(DefaultEdit(), serde) == Ok(serde.defaultConfig)
  {
  }

  // ---------------------------------------------------------------------------
  // ZenohConfigJson
  // ---------------------------------------------------------------------------

  /** A JSON value meant to be one that zenoh accepts as a configuration.
      `FromJson` checks that; a value deserialized from the UI, or built
      directly as in the examples below, is not checked. */
  datatype ZenohConfigJson = ZenohConfigJson(configJson: Json)

  /** `ZenohConfigJson::from_json`: keeps `json` exactly when zenoh's
      deserializer accepts it. */
  function FromJson(json: Json, serde: Serde): (r: Result<ZenohConfigJson, string>)
    ensures r.Ok? <==> serde.fromValue(json).Ok?
    ensures r.Ok? ==> AsJson(r.value) == json
  {
    match serde.fromValue(json)
    case Ok(_) => Ok(ZenohConfigJson(json))
    case Err(e) => Err("Invalid zenoh config JSON: " + e)
  }

  /** `ZenohConfigJson::as_json` */
  function AsJson(c: ZenohConfigJson): (j: Json)
    ensures ZenohConfigJson(j) == c
  {
    c.configJson
  }

  /** `ZenohConfigJson::get_websocket_port`: the number at
      `plugins.remote_api.websocket_port` when it is a `u64`, cut to 16 bits
      by `as u16`. */
  function GetWebsocketPort(c: ZenohConfigJson): (r: Option<U16>)
    ensures r.Some? <==> exists v :: WebsocketPortIs(c.configJson, v)
    ensures forall v :: WebsocketPortIs(c.configJson, v) ==> r == Some(v % 0x1_0000)
  {
    match Get(c.configJson, "plugins")
    case None => None
    case Some(p) =>
      match Get(p, "remote_api")
      case None => None
      case Some(ra) =>
        match Get(ra, "websocket_port")
        case None => None
        case Some(wp) =>
          match AsU64(wp)
          case None => None
          case Some(port) =>
            assert WebsocketPortIs(c.configJson, port);
            Some(port % 0x1_0000)
  }

  /** `j` holds the non-negative integer `v` at `plugins.remote_api.websocket_port`. */
  ghost predicate WebsocketPortIs(j: Json, v: int) {
    && j.Obj? && "plugins" in j.fields
    && j.fields["plugins"].Obj? && "remote_api" in j.fields["plugins"].fields
    && var ra := j.fields["plugins"].fields["remote_api"];
    && ra.Obj? && "websocket_port" in ra.fields
    && ra.fields["websocket_port"].Num? && ra.fields["websocket_port"].n.PosInt?
    && ra.fields["websocket_port"].n.u == v
  }

  /** A configuration with `websocket_port` at the right place. */
  function WithWebsocketPort(port: Json): Json {
    Obj(map["plugins" := Obj(map["remote_api" := Obj(map["websocket_port" := port])])])
  }

  /** A port written as a string is not read: only `as_u64` is tried. */
  lemma StringPortIsNotRead()
    ensures GetWebsocketPort(ZenohConfigJson(WithWebsocketPort(Str("10000")))) == None
  {
  }

  /** `as u16` keeps the low 16 bits: 70000 is read as 4464. */
  lemma PortIsTruncated()
    ensures GetWebsocketPort(ZenohConfigJson(WithWebsocketPort(Num(PosInt(70000))))) == Some(4464)
  {
  }

  /** A configuration without a `plugins` object has no port. */
  lemma MissingPluginsHasNoPort(c: ZenohConfigJson)
    requires !c.configJson.Obj? || "plugins" !in c.configJson.fields
    ensures GetWebsocketPort(c) == None
  {
  }
}
