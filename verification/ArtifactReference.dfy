/**
Artifact references: the canonical text of a reference, the parser that accepts nothing else, and
the inverse laws between them.
*/
module ArtifactReference {
  import opened Prelude
  import opened Text

  datatype Kind = AgentKind | SkillKind | ConnectorKind | ActionKind | ExperimentPlanKind

  datatype Reference =
    | ArtifactRef(kind: Kind, name: string)
    | ActionRef(connector: string, action: string)
    | ToolRef(name: string)

  datatype ReferenceError =
    | MissingScheme
    | UnknownKind
    | EmptyActionPart
    | DottedActionArtifact
    | DottedConnector
    | BadConnector
    | BadAction
    | BadTarget
    | NotCanonical

  function KindName(kind: Kind): string {
    match kind
    case AgentKind => "agent"
    case SkillKind => "skill"
    case ConnectorKind => "connector"
    case ActionKind => "action"
    case ExperimentPlanKind => "experiment_plan"
  }

  function KindNamed(name: string): Option<Kind> {
    if name == "agent" then Some(AgentKind)
    else if name == "skill" then Some(SkillKind)
    else if name == "connector" then Some(ConnectorKind)
    else if name == "action" then Some(ActionKind)
    else if name == "experiment_plan" then Some(ExperimentPlanKind)
    else None
  }

  const MAX_TARGET := 512
  const SCHEME := "://"

  predicate IsAlphanumeric(c: char) { IsLetter(c) || IsDigit(c) }

  predicate IsTargetChar(c: char) {
    IsAlphanumeric(c) || c == '_' || c == '-' || c == '.' || c == '~' || c == ':' || c == '/' || c == '@' || c == '#'
  }

  /** Every admitted character is one byte, so the 512-byte limit is a limit on characters. */
  predicate ValidTarget(t: string) {
    && t != ""
    && |t| <= MAX_TARGET
    && Find(t, SCHEME).None?
    && IsAlphanumeric(t[0])
    && IsAlphanumeric(t[|t| - 1])
    && forall c | c in t :: IsTargetChar(c)
  }

  function Print(r: Reference): Result<string, ReferenceError> {
    match r
    case ArtifactRef(kind, name) =>
      if kind == ActionKind && '.' in name then Err(DottedActionArtifact)
      else if !ValidTarget(name) then Err(BadTarget)
      else Ok(KindName(kind) + SCHEME + name)
    case ActionRef(connector, action) =>
      if !ValidTarget(connector) then Err(BadConnector)
      else if !ValidTarget(action) then Err(BadAction)
      else if '.' in connector then Err(DottedConnector)
      else if !ValidTarget(connector + "." + action) then Err(BadTarget)
      else Ok("action" + SCHEME + (connector + "." + action))
    case ToolRef(name) =>
      if !ValidTarget(name) then Err(BadTarget) else Ok("tool" + SCHEME + name)
  }

  function RoundTrip(s: string, candidate: Reference): Result<Reference, ReferenceError> {
    match Print(candidate)
    case Err(e) => Err(e)
    case Ok(canonical) => if canonical == s then Ok(candidate) else Err(NotCanonical)
  }

  function Parse(s: string): Result<Reference, ReferenceError> {
    match SplitOnce(s, SCHEME)
    case None => Err(MissingScheme)
    case Some((scheme, rest)) =>
      if scheme == "action" then
        match SplitOnce(rest, ".")
        case None => RoundTrip(s, ArtifactRef(ActionKind, rest))
        case Some((connector, action)) =>
          if connector == "" || action == "" then Err(EmptyActionPart)
          else RoundTrip(s, ActionRef(connector, action))
      else if scheme == "tool" then RoundTrip(s, ToolRef(rest))
      else
        match KindNamed(scheme)
        case None => Err(UnknownKind)
        case Some(kind) => RoundTrip(s, ArtifactRef(kind, rest))
  }

  /** A head without the pattern's first character is what `split_once` splits off. */
  lemma SplitAfter(head: string, pattern: string, tail: string)
    requires pattern != "" && pattern[0] !in head
    ensures SplitOnce(head + pattern + tail, pattern) == Some((head, tail))
  {
    var s := head + pattern + tail;
    assert s[|head|..|head| + |pattern|] == pattern;
    forall i: nat | i < |head| ensures !OccursAt(s, pattern, i) {
      assert s[i] in head;
      NoMatchOnFirst(s, pattern, i);
    }
    FindIs(s, pattern, |head|);
    assert s[..|head|] == head && s[|head| + |pattern|..] == tail;
  }

  lemma NothingToSplit(s: string, c: char)
    requires c !in s
    ensures SplitOnce(s, [c]).None?
  {
    forall i: nat ensures !OccursAt(s, [c], i) {
      if i < |s| {
        NoMatchOnFirst(s, [c], i);
      }
    }
  }

  /** Everything that prints is read back as itself. */
  lemma ParseInvertsPrint(r: Reference)
    requires Print(r).Ok?
    ensures Parse(Print(r).value) == Ok(r)
  {
    var s := Print(r).value;
    match r
    case ArtifactRef(kind, name) =>
      SplitAfter(KindName(kind), SCHEME, name);
      if kind == ActionKind {
        NothingToSplit(name, '.');
      }
    case ActionRef(connector, action) =>
      SplitAfter("action", SCHEME, connector + "." + action);
      SplitAfter(connector, ".", action);
    case ToolRef(name) =>
      SplitAfter("tool", SCHEME, name);
  }

  /** Parsing and printing are inverse: a text is read as `r` exactly when `r` prints as that text. */
  lemma ParsesExactlyWhatPrints(s: string, r: Reference)
    ensures Parse(s) == Ok(r) <==> Print(r) == Ok(s)
  {
    if Print(r) == Ok(s) {
      ParseInvertsPrint(r);
    }
  }

  lemma PrintIsInjective(a: Reference, b: Reference)
    requires Print(a).Ok? && Print(a) == Print(b)
    ensures a == b
  {
    ParseInvertsPrint(a);
    ParseInvertsPrint(b);
  }

  /** A text is accepted exactly when it is the canonical form of some reference. */
  lemma AcceptsCanonicalText(s: string)
    ensures Parse(s).Ok? <==> exists r :: Print(r) == Ok(s)
  {
    if r :| Print(r) == Ok(s) {
      ParseInvertsPrint(r);
    }
    if Parse(s).Ok? {
      ParsesExactlyWhatPrints(s, Parse(s).value);
    }
  }

  /** The reference a text would be, by its scheme and, for an action, by its first dot. */
  ghost predicate IsCandidate(s: string, r: Reference) {
    match r
    case ArtifactRef(kind, name) => s == KindName(kind) + SCHEME + name && (kind == ActionKind ==> '.' !in name)
    case ActionRef(connector, action) =>
      s == "action" + SCHEME + (connector + "." + action) && '.' !in connector && connector != "" && action != ""
    case ToolRef(name) => s == "tool" + SCHEME + name
  }

  /** Printing a candidate yields the very text, or fails: the comparison behind it never does. */
  lemma CandidatePrints(s: string, r: Reference)
    requires IsCandidate(s, r)
    ensures RoundTrip(s, r) == match Print(r) case Ok(_) => Ok(r) case Err(e) => Err(e)
  {
  }

  lemma DotSplits(rest: string)
    ensures SplitOnce(rest, ".").None? ==> '.' !in rest
    ensures SplitOnce(rest, ".").Some? ==> '.' !in SplitOnce(rest, ".").value.0
  {
    forall i | 0 <= i < |rest| && rest[i] == '.' ensures OccursAt(rest, ".", i) {
    }
    if SplitOnce(rest, ".").Some? {
      var i := Find(rest, ".").value;
      forall j | 0 <= j < i ensures rest[j] != '.' {
        assert !OccursAt(rest, ".", j);
      }
    }
  }

  /**
  What a text is refused for: no scheme, an unknown one, an action with an empty part, or what
  keeps its candidate from being printed. It is never refused for not being canonical.
  */
  lemma ParseFails(s: string)
    requires Parse(s).Err?
    ensures
      match SplitOnce(s, SCHEME)
      case None => Parse(s).error == MissingScheme
      case Some((scheme, rest)) =>
        if scheme != "action" && scheme != "tool" && KindNamed(scheme).None? then Parse(s).error == UnknownKind
        else if scheme == "action" && SplitOnce(rest, ".").Some?
                && (SplitOnce(rest, ".").value.0 == "" || SplitOnce(rest, ".").value.1 == "")
        then Parse(s).error == EmptyActionPart
        else exists r :: IsCandidate(s, r) && Print(r) == Err(Parse(s).error)
  {
    match SplitOnce(s, SCHEME)
    case None =>
    case Some((scheme, rest)) =>
      DotSplits(rest);
      var r :=
        if scheme == "action" then
          if SplitOnce(rest, ".").None? then ArtifactRef(ActionKind, rest)
          else ActionRef(SplitOnce(rest, ".").value.0, SplitOnce(rest, ".").value.1)
        else if scheme == "tool" then ToolRef(rest)
        else ArtifactRef(if KindNamed(scheme).Some? then KindNamed(scheme).value else AgentKind, rest);
      if IsCandidate(s, r) {
        CandidatePrints(s, r);
      }
  }
}
