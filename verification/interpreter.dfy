/** The line-level operations of `LogStream`: rewriting source references into links,
    rendering a raw log line, and extracting an error report from it. The collaborators
    these read (the diagnostic object, the workspace paths and the `path` module) are
    passed in as an `Env`. */
module Interpreter {
  import opened Wrappers
  import opened JsText
  import opened Patterns
  import opened Classifier

  /** The value of `diagnostic.pre`: the two gates on it test different things
      (truthiness when linking, `=== undefined` when extracting errors). */
  datatype PreValue = PreUndefined | PreFalsy | PreObject

  /** What `diagnostic.getSource(kind)` returns: the preprocessed file and its
      `pre.getErrorLocation`, which maps a 0-based line to `[relativePath, line]`. */
  datatype Source = Source(file: string, errorLocation: int -> (string, int))

  datatype Env = Env(
    pre: PreValue,
    sources: map<string, Source>,          // getSource(kind) is undefined off the map
    agentPath: string,                     // Workspace.Data.getSourcesPathsSync().agent_path
    devicePath: string,                    // Workspace.Data.getSourcesPathsSync().device_path
    join: (string, string) -> string,      // path.join
    dirname: string -> string)             // path.dirname

  const AgentCode := "agent_code"
  const DeviceCode := "device_code"

  predicate Mentions(s: string, pat: string) {
    IndexOf(s, pat).Some?
  }

  /** A rewritten message ends with the `:0` column suffix. */
  predicate EndsWithZero(s: string) {
    |s| >= 2 && s[|s| - 2..] == ":0"
  }

  /** `replaceFileNameToLink(msg)`: messages naming neither kind pass unchanged; otherwise
      a truthy `diagnostic.pre` selects mapped mode, anything else flat mode. */
  function ReplaceFileNameToLink(env: Env, msg: string): (r: string)
    ensures (forall j :: !OccursAt(msg, AgentCode, j) && !OccursAt(msg, DeviceCode, j)) ==> r == msg
    ensures env.pre != PreObject && (exists j :: OccursAt(msg, AgentCode, j) || OccursAt(msg, DeviceCode, j))
      ==> EndsWithZero(r)
    ensures r == msg || EndsWithZero(r)
  {
    var haveAgent := Mentions(msg, AgentCode);
    var haveDevice := Mentions(msg, DeviceCode);
    if !haveAgent && !haveDevice then msg
    else if env.pre == PreObject then MappedLink(env, msg)
    else FlatLink(env, msg, haveAgent)
  }

  /** Mapped mode: the last `kind:N` on the first line holding one is resolved through the
      source's line mapper, and the first occurrence of its literal text replaced. */
  function MappedLink(env: Env, msg: string): (r: string)
    ensures (forall a: nat :: !RefAt(msg, a)) ==> r == msg
    ensures r == msg || EndsWithZero(r)
  {
    match Match(SourceRef, msg)
    case None => msg
    case Some(m) =>
      var kind := RefKind(msg, m.end);
      var digits := RefDigits(msg, m.end);
      if kind !in env.sources then msg
      else ReplaceFirst(msg, kind + ":" + digits, LinkTarget(env, kind, digits)) + ":0"
  }

  /** `${fullPath}:${loc[1]}`: the line `N` of the preprocessed `kind` source is looked up
      as `N - 1`, and the original path is joined onto the directory of that source. */
  function LinkTarget(env: Env, kind: string, digits: string): string
    requires kind in env.sources && AllDigits(digits)
  {
    var src := env.sources[kind];
    var loc := src.errorLocation(ParseDecimal(digits) - 1);
    var fullPath := env.join(env.dirname(src.file), loc.0);
    fullPath + ":" + IntToDecimal(loc.1)
  }

  /** Flat mode: the first `agent_code` (or, without one, the first `device_code`) is
      replaced by the configured path. */
  function FlatLink(env: Env, msg: string, haveAgent: bool): (r: string)
    ensures EndsWithZero(r)
  {
    if haveAgent then ReplaceFirst(msg, AgentCode, env.agentPath) + ":0"
    else ReplaceFirst(msg, DeviceCode, env.devicePath) + ":0"
  }

  /** A message that names neither kind of source comes back unchanged, in either mode. */
  lemma LinkWithoutReference(env: Env, msg: string)
    requires forall j :: !OccursAt(msg, AgentCode, j) && !OccursAt(msg, DeviceCode, j)
    ensures ReplaceFileNameToLink(env, msg) == msg
  {
  }

  /** Flat mode, agent first: only the first `agent_code` is replaced by the agent path,
      and one `:0` is appended; the line number stays as it was. */
  lemma LinkFlatAgent(env: Env, msg: string, i: nat)
    requires env.pre != PreObject && '$' !in env.agentPath
    requires OccursAt(msg, AgentCode, i) && forall j :: 0 <= j < i ==> !OccursAt(msg, AgentCode, j)
    ensures ReplaceFileNameToLink(env, msg) == msg[..i] + env.agentPath + msg[i + 10..] + ":0"
  {
    ReplaceFirstSpec(msg, AgentCode, env.agentPath, i);
  }

  /** Flat mode without any `agent_code`: only the first `device_code` is replaced by the
      device path, and one `:0` is appended. */
  lemma LinkFlatDevice(env: Env, msg: string, i: nat)
    requires env.pre != PreObject && '$' !in env.devicePath
    requires forall j :: !OccursAt(msg, AgentCode, j)
    requires OccursAt(msg, DeviceCode, i) && forall j :: 0 <= j < i ==> !OccursAt(msg, DeviceCode, j)
    ensures ReplaceFileNameToLink(env, msg) == msg[..i] + env.devicePath + msg[i + 11..] + ":0"
  {
    ReplaceFirstSpec(msg, DeviceCode, env.devicePath, i);
  }

  /** Mapped mode leaves a one-line message unchanged when no `kind:digits` reference
      exists, or when the diagnostic knows no source for the last one. */
  lemma LinkMappedUnresolved(env: Env, msg: string)
    requires env.pre == PreObject && NoLineTerminator(msg)
    requires (forall a: nat :: !RefAt(msg, a))
          || (exists a: nat :: RefAt(msg, a) && (forall b: nat :: a < b ==> !RefAt(msg, b))
                              && RefKind(msg, a) !in env.sources)
    ensures ReplaceFileNameToLink(env, msg) == msg
  {
    SourceRefIsLast(msg);
  }

  /** Mapped mode on a one-line message whose last reference starts at `a` and whose
      kind has a source: the number `N` is mapped as `N - 1`, and the first occurrence of
      the literal `kind:N` text (index `i`, which may lie before `a`) is replaced by
      `join(dirname(file), path) + ":" + line`; then `:0` is appended. */
  lemma LinkMapped(env: Env, msg: string, a: nat, i: nat)
    requires env.pre == PreObject && NoLineTerminator(msg)
    requires RefAt(msg, a) && forall b: nat :: a < b ==> !RefAt(msg, b)
    requires RefKind(msg, a) in env.sources
    requires '$' !in LinkTarget(env, RefKind(msg, a), RefDigits(msg, a))
    requires var literal := RefKind(msg, a) + ":" + RefDigits(msg, a);
      OccursAt(msg, literal, i) && forall j :: 0 <= j < i ==> !OccursAt(msg, literal, j)
    ensures
      var literal := RefKind(msg, a) + ":" + RefDigits(msg, a);
      ReplaceFileNameToLink(env, msg)
        == msg[..i] + LinkTarget(env, RefKind(msg, a), RefDigits(msg, a)) + msg[i + |literal|..] + ":0"
  {
    SourceRefAt(msg, a);
    LinkMappedBranch(env, msg, 0, a);
    MappedLinkFirst(env, msg, a, i);
  }

  /** With `pre` an object and a reference found, the mapped branch is taken. */
  lemma LinkMappedBranch(env: Env, msg: string, p: nat, a: nat)
    requires env.pre == PreObject && Match(SourceRef, msg) == Some(Split(p, a)) && RefAt(msg, a)
    ensures ReplaceFileNameToLink(env, msg) == MappedLink(env, msg)
  {
    assert OccursAt(msg, RefKind(msg, a), a);
    assert Mentions(msg, AgentCode) || Mentions(msg, DeviceCode);
  }

  /** The mapped branch once the pattern has reported the split `(0, a)`: the first
      occurrence of the literal `kind:N` gives way to the link target. */
  lemma MappedLinkFirst(env: Env, msg: string, a: nat, i: nat)
    requires Match(SourceRef, msg) == Some(Split(0, a)) && RefAt(msg, a)
    requires RefKind(msg, a) in env.sources
    requires '$' !in LinkTarget(env, RefKind(msg, a), RefDigits(msg, a))
    requires var literal := RefKind(msg, a) + ":" + RefDigits(msg, a);
      OccursAt(msg, literal, i) && forall j :: 0 <= j < i ==> !OccursAt(msg, literal, j)
    ensures
      var literal := RefKind(msg, a) + ":" + RefDigits(msg, a);
      MappedLink(env, msg)
        == msg[..i] + LinkTarget(env, RefKind(msg, a), RefDigits(msg, a)) + msg[i + |literal|..] + ":0"
  {
    var kind, digits := RefKind(msg, a), RefDigits(msg, a);
    ReplaceFirstSpec(msg, kind + ":" + digits, LinkTarget(env, kind, digits), i);
  }

  /** A worked mapped-mode case: `agent_code:42` is looked up as line 41, and the whole
      reference becomes `<joined path>:<mapped line>:0`. */
  lemma LinkMappedExample(msg: string, src: Source, join: (string, string) -> string, dirname: string -> string)
    requires msg == "agent_code:42"
    requires src.errorLocation(41) == ("main.tut", 10)
    requires '$' !in join(dirname(src.file), "main.tut")
    ensures
      var env := Env(PreObject, map["agent_code" := src], "", "", join, dirname);
      ReplaceFileNameToLink(env, msg) == join(dirname(src.file), "main.tut") + ":10:0"
  {
    var env := Env(PreObject, map["agent_code" := src], "", "", join, dirname);
    var t := join(dirname(src.file), "main.tut");
    ExampleTarget(env, t);
    ExampleLink(env, msg);
    GlueTail(t);
  }

  lemma GlueTail(t: string)
    ensures "" + (t + ":10") + "" + ":0" == t + ":10:0"
  {
  }

  /** Line 42 is looked up as 41, and the mapped line 10 is rendered in decimal. */
  lemma ExampleTarget(env: Env, t: string)
    requires AgentCode in env.sources && env.sources[AgentCode].errorLocation(41) == ("main.tut", 10)
    requires t == env.join(env.dirname(env.sources[AgentCode].file), "main.tut")
    ensures LinkTarget(env, AgentCode, "42") == t + ":10"
  {
    assert ParseDecimal("42") == 42 by { assert "42"[..1] == "4"; }
    assert IntToDecimal(10) == "10";
  }

  /** The link rewrite of `agent_code:42` for any source of `agent_code`. */
  lemma ExampleLink(env: Env, msg: string)
    requires msg == "agent_code:42"
    requires env.pre == PreObject && AgentCode in env.sources
    requires '$' !in LinkTarget(env, AgentCode, "42")
    ensures ReplaceFileNameToLink(env, msg) == "" + LinkTarget(env, AgentCode, "42") + "" + ":0"
  {
    ExampleText(msg);
    LinkMapped(env, msg, 0, 0);
  }

  /** The pattern facts about `agent_code:42`. */
  lemma ExampleText(msg: string)
    requires msg == "agent_code:42"
    ensures NoLineTerminator(msg)
    ensures RefAt(msg, 0) && RefKind(msg, 0) == "agent_code" && RefDigits(msg, 0) == "42"
    ensures forall b: nat :: 0 < b ==> !RefAt(msg, b)
    ensures var literal := RefKind(msg, 0) + ":" + RefDigits(msg, 0);
      OccursAt(msg, literal, 0) && |literal| == 13
    ensures msg[..0] == "" && msg[13..] == ""
  {
    ExampleRef(msg);
    ExampleLast(msg);
  }

  lemma ExampleRef(msg: string)
    requires msg == "agent_code:42"
    ensures NoLineTerminator(msg)
    ensures RefAt(msg, 0) && RefKind(msg, 0) == "agent_code" && RefDigits(msg, 0) == "42"
  {
    forall i | 0 <= i < |msg| ensures !IsLineTerminator(msg[i]) {
      assert msg[i] in "abcdegnot_:42";
    }
    assert OccursAt(msg, AgentCode, 0);
    assert !OccursAt(msg, DeviceCode, 0) by { assert msg[0] == 'a'; }
    assert KindLen(msg, 0) == 10;
    assert msg[10] == ':' && msg[11] == '4' && msg[12] == '2';
    assert RunEnd(msg, 11, Digits) == 13;
  }

  lemma ExampleLast(msg: string)
    requires msg == "agent_code:42"
    ensures forall b: nat :: 0 < b ==> !RefAt(msg, b)
  {
    forall b: nat | 0 < b ensures !RefAt(msg, b) {
      if b <= 3 {
        assert msg[b] == 'g' || msg[b] == 'e' || msg[b] == 'n';
      }
      NoRefAt(msg, b);
    }
  }


  /** The literal replace can hit a different reference than the one the pattern found:
      in `agent_code:12 agent_code:1` the last reference is `agent_code:1`, but its text
      first occurs as the prefix of `agent_code:12`, so the link is spliced in there and
      the stray `2` is glued onto the mapped line number. */
  lemma LinkReplacesEarlierPrefix(msg: string, src: Source, join: (string, string) -> string, dirname: string -> string)
    requires msg == "agent_code:12 agent_code:1"
    requires src.errorLocation(0) == ("main.nut", 7)
    requires '$' !in join(dirname(src.file), "main.nut")
    ensures
      var env := Env(PreObject, map["agent_code" := src], "", "", join, dirname);
      ReplaceFileNameToLink(env, msg) == join(dirname(src.file), "main.nut") + ":72 agent_code:1:0"
  {
    var env := Env(PreObject, map["agent_code" := src], "", "", join, dirname);
    var t := join(dirname(src.file), "main.nut");
    assert LinkTarget(env, "agent_code", "1") == t + ":7" by {
      assert ParseDecimal("1") == 1;
      assert IntToDecimal(7) == "7";
    }
    EarlierPrefixLink(env, msg);
    GlueSuffix(t);
  }

  /** The link rewrite of `agent_code:12 agent_code:1` for any source of `agent_code`. */
  lemma EarlierPrefixLink(env: Env, msg: string)
    requires msg == "agent_code:12 agent_code:1"
    requires env.pre == PreObject && AgentCode in env.sources
    requires '$' !in LinkTarget(env, AgentCode, "1")
    ensures ReplaceFileNameToLink(env, msg) == "" + LinkTarget(env, AgentCode, "1") + "2 agent_code:1" + ":0"
  {
    EarlierPrefixText(msg);
    LinkMapped(env, msg, 14, 0);
  }

  /** The pattern facts about `agent_code:12 agent_code:1`. */
  lemma EarlierPrefixText(msg: string)
    requires msg == "agent_code:12 agent_code:1"
    ensures NoLineTerminator(msg)
    ensures RefAt(msg, 14) && RefKind(msg, 14) == "agent_code" && RefDigits(msg, 14) == "1"
    ensures forall b: nat :: 14 < b ==> !RefAt(msg, b)
    ensures var literal := RefKind(msg, 14) + ":" + RefDigits(msg, 14);
      OccursAt(msg, literal, 0) && |literal| == 12
    ensures msg[..0] == "" && msg[12..] == "2 agent_code:1"
  {
    EarlierPrefixRef(msg);
    assert msg[..12] == "agent_code:1";
  }

  lemma EarlierPrefixRef(msg: string)
    requires msg == "agent_code:12 agent_code:1"
    ensures NoLineTerminator(msg)
    ensures RefAt(msg, 14) && RefKind(msg, 14) == "agent_code" && RefDigits(msg, 14) == "1"
    ensures forall b: nat :: 14 < b ==> !RefAt(msg, b)
  {
    forall i | 0 <= i < |msg| ensures !IsLineTerminator(msg[i]) {
      assert msg[i] in "abcdegnot_:12 ";
    }
    assert OccursAt(msg, AgentCode, 14);
    assert !OccursAt(msg, DeviceCode, 14) by { assert msg[14] == 'a'; }
    assert KindLen(msg, 14) == 10;
    assert msg[24] == ':' && msg[25] == '1';
    assert RunEnd(msg, 25, Digits) == 26;
    EarlierPrefixLast(msg);
  }

  lemma EarlierPrefixLast(msg: string)
    requires msg == "agent_code:12 agent_code:1"
    ensures forall b: nat :: 14 < b ==> !RefAt(msg, b)
  {
    forall b: nat | 14 < b ensures !RefAt(msg, b) {
      if b <= 16 {
        assert msg[b] == 'g' || msg[b] == 'e';
      }
      NoRefAt(msg, b);
    }
  }


  lemma GlueSuffix(t: string)
    ensures "" + (t + ":7") + "2 agent_code:1" + ":0" == t + ":72 agent_code:1:0"
  {
  }

  /** `getLogStreamLogMessage(message)` with the timestamp `ts` passed in. A line that
      matches the grammar but whose category is not in the table makes
      `getTypeString(undefined)` throw. */
  function GetLogStreamLogMessage(env: Env, ts: string, message: string): (r: Completion<string>)
    ensures Match(LogLine, message).None? ==> r == Normal(message)
    ensures Match(LogLine, message).Some? ==>
      (r.Thrown? <==> Category(message, Match(LogLine, message).value.end) !in Tokens)
    ensures Match(LogLine, message).Some? && r.Normal? ==>
      ts + " [" <= r.value
  {
    match Match(LogLine, message)
    case None => Normal(message)
    case Some(m) =>
      match GetTypeInfo(Category(message, m.end))
      case None => Thrown
      case Some(info) =>
        Normal(TaggedLine(ts, info, ReplaceFileNameToLink(env, Body(message, m.end))))
  }

  /** `${time} ${getTypeString(...)} ${link(body)}` for a category of the table. */
  function TaggedLine(ts: string, info: TypeInfo, body: string): (line: string)
    requires info.className in ClassNames
    ensures ts + " [" <= line
  {
    var tag := GetTypeString(info).value;
    assert "[" <= tag;
    ts + " " + tag + " " + body
  }

  /** A line outside the grammar is passed through byte for byte. */
  lemma RenderPassesThrough(env: Env, ts: string, message: string)
    requires forall q: nat, a: nat :: !Feasible(LogLine, message, q, a)
    ensures GetLogStreamLogMessage(env, ts, message) == Normal(message)
  {
  }

  /** A line inside the grammar becomes `ts [Name] body` (with the extra space of the
      agent family), the body rewritten into links; it throws exactly when the category
      is not one of the ten tokens, and the category is never `IDE.log`. */
  lemma RenderMatched(env: Env, ts: string, message: string, m: Split)
    requires IsMatch(LogLine, message, m)
    ensures Category(message, m.end) != "IDE.log"
    ensures GetLogStreamLogMessage(env, ts, message).Thrown? <==> Category(message, m.end) !in Tokens
    ensures Category(message, m.end) in Tokens ==>
      var info := GetTypeInfo(Category(message, m.end)).value;
      GetLogStreamLogMessage(env, ts, message)
        == Normal(ts + " " + ("[" + info.name + "]" + (if IsAgentClass(info.className) then " " else ""))
                  + " " + ReplaceFileNameToLink(env, Body(message, m.end)))
  {
    CategoryIsLowerRun(LogLine, message, m.start, m.end);
    MatchUnique(LogLine, message, Match(LogLine, message).value, m);
    RenderAt(env, ts, message, m);
  }

  lemma RenderAt(env: Env, ts: string, message: string, m: Split)
    requires Match(LogLine, message) == Some(m)
    ensures GetLogStreamLogMessage(env, ts, message).Thrown? <==> Category(message, m.end) !in Tokens
    ensures Category(message, m.end) in Tokens ==>
      var info := GetTypeInfo(Category(message, m.end)).value;
      GetLogStreamLogMessage(env, ts, message)
        == Normal(ts + " " + ("[" + info.name + "]" + (if IsAgentClass(info.className) then " " else ""))
                  + " " + ReplaceFileNameToLink(env, Body(message, m.end)))
  {
    var cat := Category(message, m.end);
    if cat in Tokens {
      var info := GetTypeInfo(cat).value;
      assert GetTypeString(info).Some?;
    }
  }

  lemma MatchUnique(g: Pattern, s: string, m1: Split, m2: Split)
    requires IsMatch(g, s, m1) && IsMatch(g, s, m2)
    ensures m1 == m2
  {
  }

  /** The record `getErrorMessage` hands to `diagnostic.addLogStreamError`. */
  datatype ErrorRecord = ErrorRecord(source: string, file: string, line: string)

  /** A record names a source the diagnostic knows, that source's file, and a line
      number written in decimal digits. */
  predicate KnownSource(env: Env, e: ErrorRecord) {
    e.source in env.sources && e.file == env.sources[e.source].file
    && |e.line| >= 1 && AllDigits(e.line)
  }

  /** `getErrorMessage(message)`: `undefined` (None) when the `ERROR:` grammar fails or
      `diagnostic.pre` is undefined; otherwise what `ErrorFromText` makes of the error
      text. */
  function GetErrorMessage(env: Env, message: string): (r: Completion<Option<ErrorRecord>>)
    ensures r != Normal(None) ==> Match(ErrorLine, message).Some? && env.pre != PreUndefined
    ensures r.Normal? && r.value.Some? ==> KnownSource(env, r.value.value)
  {
    match Match(ErrorLine, message)
    case None => Normal(None)
    case Some(m) =>
      if env.pre == PreUndefined then Normal(None)
      else ErrorFromText(env, ErrorText(message, m.end))
  }

  /** The rest of `getErrorMessage` on the error text `errMsg`: it throws when the text
      names a source kind that `getSource` does not know, or has no `:digits` to take the
      line from. */
  function ErrorFromText(env: Env, errMsg: string): (r: Completion<Option<ErrorRecord>>)
    ensures r == Normal(None) <==> ErrorKind(errMsg).None?
    ensures r.Normal? && r.value.Some? ==>
      KnownSource(env, r.value.value) && ErrorKind(errMsg) == Some(r.value.value.source)
  {
    var res := Match(ColonDigits, errMsg);
    if Mentions(errMsg, AgentCode) then
      if AgentCode !in env.sources || res.None? then Thrown
      else Normal(Some(ErrorRecord(AgentCode, env.sources[AgentCode].file, LineDigits(errMsg, res.value.end))))
    else if Mentions(errMsg, DeviceCode) then
      if DeviceCode !in env.sources || res.None? then Thrown
      else Normal(Some(ErrorRecord(DeviceCode, env.sources[DeviceCode].file, LineDigits(errMsg, res.value.end))))
    else Normal(None)
  }

  /** No report without an `ERROR:` line or with `diagnostic.pre` undefined. (A defined but
      falsy `pre` does not stop extraction, although it switches links to flat mode.) */
  lemma ErrorNeedsGrammarAndPre(env: Env, message: string)
    requires (forall q: nat, a: nat :: !Feasible(ErrorLine, message, q, a)) || env.pre == PreUndefined
    ensures GetErrorMessage(env, message) == Normal(None)
  {
  }

  /** The kind whose source an error text names: `agent_code` wins over `device_code`. */
  function ErrorKind(errMsg: string): (k: Option<string>)
    ensures k.None? <==> forall j :: !OccursAt(errMsg, AgentCode, j) && !OccursAt(errMsg, DeviceCode, j)
    ensures k == Some(AgentCode) <==> exists j :: OccursAt(errMsg, AgentCode, j)
    ensures k == Some(DeviceCode) <==>
      (forall j :: !OccursAt(errMsg, AgentCode, j)) && exists j :: OccursAt(errMsg, DeviceCode, j)
  {
    if Mentions(errMsg, AgentCode) then Some(AgentCode)
    else if Mentions(errMsg, DeviceCode) then Some(DeviceCode)
    else None
  }

  /** What an `ERROR:` line yields once `pre` is defined: nothing when the text names no
      source; a throw when the named kind has no source or the text has no `:digits`;
      otherwise the kind, its file, and the digits after the LAST `:` that is followed by
      a digit. */
  lemma ErrorExtracted(env: Env, message: string, m: Split)
    requires IsMatch(ErrorLine, message, m) && env.pre != PreUndefined
    ensures var t := ErrorText(message, m.end);
      ErrorKind(t).None? ==> GetErrorMessage(env, message) == Normal(None)
    ensures var t := ErrorText(message, m.end);
      (ErrorKind(t).Some? && (ErrorKind(t).value !in env.sources || forall a: nat :: !ColonDigitAt(t, a)))
        ==> GetErrorMessage(env, message).Thrown?
    ensures var t := ErrorText(message, m.end);
      forall a: nat | ErrorKind(t).Some? && ErrorKind(t).value in env.sources
                      && ColonDigitAt(t, a) && (forall b: nat :: a < b ==> !ColonDigitAt(t, b)) ::
        GetErrorMessage(env, message)
          == Normal(Some(ErrorRecord(ErrorKind(t).value, env.sources[ErrorKind(t).value].file, LineDigits(t, a))))
  {
    MatchUnique(ErrorLine, message, Match(ErrorLine, message).value, m);
    var t := ErrorText(message, m.end);
    CapturesAreSingleLine(message, m.end);
    ErrorTextRejected(env, t);
    forall a: nat | ErrorKind(t).Some? && ErrorKind(t).value in env.sources
                    && ColonDigitAt(t, a) && (forall b: nat :: a < b ==> !ColonDigitAt(t, b))
      ensures GetErrorMessage(env, message)
          == Normal(Some(ErrorRecord(ErrorKind(t).value, env.sources[ErrorKind(t).value].file, LineDigits(t, a))))
    {
      ErrorTextExtracted(env, t, a);
    }
  }

  /** `ErrorFromText` on a one-line error text: no record without a kind, a throw without
      a source or a `:digits`. */
  lemma ErrorTextRejected(env: Env, t: string)
    requires NoLineTerminator(t)
    ensures ErrorKind(t).None? ==> ErrorFromText(env, t) == Normal(None)
    ensures (ErrorKind(t).Some? && (ErrorKind(t).value !in env.sources || forall a: nat :: !ColonDigitAt(t, a)))
        ==> ErrorFromText(env, t).Thrown?
  {
    ColonDigitsIsLast(t);
  }

  /** `ErrorFromText` on a one-line error text whose last `:digits` is at `a`. */
  lemma ErrorTextExtracted(env: Env, t: string, a: nat)
    requires NoLineTerminator(t)
    requires ErrorKind(t).Some? && ErrorKind(t).value in env.sources
    requires ColonDigitAt(t, a) && forall b: nat :: a < b ==> !ColonDigitAt(t, b)
    ensures ErrorFromText(env, t)
          == Normal(Some(ErrorRecord(ErrorKind(t).value, env.sources[ErrorKind(t).value].file, LineDigits(t, a))))
  {
    ColonDigitsIsLast(t);
  }


}
