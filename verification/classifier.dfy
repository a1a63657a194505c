/** The category classifier of `LogStream` and the two renderers of its tag. */
module Classifier {
  import opened Wrappers

  /** `typeInfo`: the display name of a category and its class name. */
  datatype TypeInfo = TypeInfo(name: string, className: string)

  /** The ten category tokens `getTypeInfo` knows. */
  const Tokens: set<string> :=
    {"server.log", "server.error", "server.sleep", "agent.log", "agent.error",
     "status", "powerstate", "lastexitcode", "firmware", "IDE.log"}

  /** The ten class names `getTypeString` and `getTypeStringColorized` know. */
  const ClassNames: set<string> :=
    {"device-log", "device-error", "device-sleep", "agent-log", "agent-error",
     "status", "power-state", "last-exit-code", "firmware", "ide-log"}

  /** The agent family, whose plain tag carries a trailing space. */
  predicate IsAgentClass(className: string) {
    className == "agent-log" || className == "agent-error"
  }

  /** `LogStream.getTypeInfo(type)`: an exact-equality lookup; `undefined` (None) for
      every string that is not one of the ten tokens. */
  function GetTypeInfo(token: string): (r: Option<TypeInfo>)
    ensures r.None? <==> token !in Tokens
    ensures r.Some? ==> r.value.className in ClassNames && |r.value.name| > 0
  {
    match token
    case "server.log" => Some(TypeInfo("Device", "device-log"))
    case "server.error" => Some(TypeInfo("Device", "device-error"))
    case "server.sleep" => Some(TypeInfo("Device", "device-sleep"))
    case "agent.log" => Some(TypeInfo("Agent", "agent-log"))
    case "agent.error" => Some(TypeInfo("Agent", "agent-error"))
    case "status" => Some(TypeInfo("Status", "status"))
    case "powerstate" => Some(TypeInfo("Power State", "power-state"))
    case "lastexitcode" => Some(TypeInfo("Exit Code", "last-exit-code"))
    case "firmware" => Some(TypeInfo("Firmware", "firmware"))
    case "IDE.log" => Some(TypeInfo("IDE", "ide-log"))
    case _ => None
  }

  /** The token a class name comes from: the inverse of the table. */
  function TokenOfClass(className: string): (t: Option<string>)
    ensures t.Some? <==> className in ClassNames
  {
    match className
    case "device-log" => Some("server.log")
    case "device-error" => Some("server.error")
    case "device-sleep" => Some("server.sleep")
    case "agent-log" => Some("agent.log")
    case "agent-error" => Some("agent.error")
    case "status" => Some("status")
    case "power-state" => Some("powerstate")
    case "last-exit-code" => Some("lastexitcode")
    case "firmware" => Some("firmware")
    case "ide-log" => Some("IDE.log")
    case _ => None
  }

  /** The class name identifies the token: distinct tokens never share a class, so the
      table is a bijection between the ten tokens and the ten class names. */
  lemma ClassIdentifiesToken(token: string)
    requires token in Tokens
    ensures GetTypeInfo(token).Some? && TokenOfClass(GetTypeInfo(token).value.className) == Some(token)
  {
  }

  lemma EveryClassHasToken(className: string)
    requires className in ClassNames
    ensures TokenOfClass(className).Some?
    ensures var t := TokenOfClass(className).value;
      GetTypeInfo(t).Some? && GetTypeInfo(t).value.className == className
  {
  }

  /** `LogStream.getTypeString(typeInfo)` on a defined `typeInfo`: `[name]`, with one
      trailing space exactly for the agent family; `undefined` for an unknown class. */
  function GetTypeString(info: TypeInfo): (r: Option<string>)
    ensures r.None? <==> info.className !in ClassNames
    ensures r.Some? ==> r.value == "[" + info.name + "]" + (if IsAgentClass(info.className) then " " else "")
  {
    match info.className
    case "device-log" => Some("[" + info.name + "]")
    case "device-sleep" => Some("[" + info.name + "]")
    case "device-error" => Some("[" + info.name + "]")
    case "agent-log" => Some("[" + info.name + "] ")
    case "agent-error" => Some("[" + info.name + "] ")
    case "status" => Some("[" + info.name + "]")
    case "power-state" => Some("[" + info.name + "]")
    case "last-exit-code" => Some("[" + info.name + "]")
    case "firmware" => Some("[" + info.name + "]")
    case "ide-log" => Some("[" + info.name + "]")
    case _ => None
  }

  /** The colour treatment `getTypeStringColorized` applies (the escape codes of the
      colour library are not modelled). */
  datatype Style =
    | Blue
    | WhiteOnBlack   // colors.bgBlack.white
    | Cyan
    | BlackOnCyan    // colors.bgCyan.black
    | Yellow
    | Green
    | Red
    | Magenta

  datatype Colored = Colored(style: Style, text: string)

  /** `LogStream.getTypeStringColorized(typeInfo)` on a defined `typeInfo`: `[name]` in one
      fixed style per class, never with a trailing space; `undefined` for an unknown class. */
  function GetTypeStringColorized(info: TypeInfo): (r: Option<Colored>)
    ensures r.None? <==> info.className !in ClassNames
    ensures r.Some? ==> r.value.text == "[" + info.name + "]"
  {
    var text := "[" + info.name + "]";
    match info.className
    case "device-log" => Some(Colored(Blue, text))
    case "device-sleep" => Some(Colored(Blue, text))
    case "device-error" => Some(Colored(WhiteOnBlack, text))
    case "agent-log" => Some(Colored(Cyan, text))
    case "agent-error" => Some(Colored(BlackOnCyan, text))
    case "status" => Some(Colored(Yellow, text))
    case "power-state" => Some(Colored(Green, text))
    case "last-exit-code" => Some(Colored(Red, text))
    case "firmware" => Some(Colored(Magenta, text))
    case "ide-log" => Some(Colored(Yellow, text))
    case _ => None
  }

  /** The two renderers agree on which classes they know and on the text; only the plain
      one pads the agent family with a space. */
  lemma PlainAndColoredAgree(info: TypeInfo)
    ensures GetTypeString(info).Some? <==> GetTypeStringColorized(info).Some?
    ensures GetTypeString(info).Some? ==>
      GetTypeString(info).value
        == GetTypeStringColorized(info).value.text + (if IsAgentClass(info.className) then " " else "")
  {
  }

  /** Error categories, and only they, are shown on a background colour. */
  lemma ErrorsHaveBackground(info: TypeInfo)
    requires info.className in ClassNames
    ensures GetTypeStringColorized(info).value.style in {WhiteOnBlack, BlackOnCyan}
      <==> info.className in {"device-error", "agent-error"}
  {
  }

  /** Every tag of the table renders: `getTypeString` never falls to its `default` branch
      for what `getTypeInfo` returns. */
  lemma TableTagsRender(token: string)
    requires token in Tokens
    ensures GetTypeString(GetTypeInfo(token).value).Some?
    ensures GetTypeStringColorized(GetTypeInfo(token).value).Some?
  {
  }
}
