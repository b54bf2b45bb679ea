/** The review that guards finalize (src/orchestrator/orchestrator.py:76-100, 765-813). */
module Review {
  import opened Wrappers
  import opened Decimal
  import opened Text

  const FAILED_MARK: string := "[REVIEW_FAILED]"
  const HEAD: string := "[FINALIZE] 任务已完成。摘要：\n"

  /** agent_type.split("-")[0] */
  function FirstPart(agentType: string): (part: string)
    ensures '-' !in part
    ensures agentType == part || (|part| < |agentType| && agentType[..|part| + 1] == part + "-")
  {
    if agentType == "" || agentType[0] == '-' then "" else [agentType[0]] + FirstPart(agentType[1..])
  }

  /** The sizes of the files below a role's directory. */
  type Files = string -> seq<nat>

  ghost predicate Produced(agentType: string, files: Files) {
    exists k :: 0 <= k < |files(FirstPart(agentType))| && files(FirstPart(agentType))[k] > 0
  }

  datatype Verdict = Verdict(passed: bool, missing: seq<string>, empty: seq<string>, perAgent: map<string, nat>)

  /** Those of the first `n` types that have no file. */
  function Missing(types: seq<string>, files: Files, n: nat): seq<string>
    requires n <= |types|
  {
    if n == 0 then []
    else Missing(types, files, n - 1) + (if files(FirstPart(types[n - 1])) == [] then [types[n - 1]] else [])
  }

  /** Those of the first `n` types whose files are all empty. */
  ghost function Empty(types: seq<string>, files: Files, n: nat): seq<string>
    requires n <= |types|
  {
    if n == 0 then []
    else
      var last := types[n - 1];
      Empty(types, files, n - 1) + (if files(FirstPart(last)) != [] && !Produced(last, files) then [last] else [])
  }

  /** The types listed as missing are those of the dispatched ones that have no file. */
  lemma {:induction false} MissingAre(types: seq<string>, files: Files, n: nat, t: string)
    requires n <= |types|
    ensures t in Missing(types, files, n) <==> files(FirstPart(t)) == [] && exists i :: 0 <= i < n && types[i] == t
  {
    hide FirstPart;
    if n == 0 {
    } else {
      MissingAre(types, files, n - 1, t);
    }
  }

  lemma {:induction false} NoneListed(types: seq<string>, files: Files, n: nat)
    requires n <= |types|
    ensures Missing(types, files, n) == [] && Empty(types, files, n) == []
        <==> forall i :: 0 <= i < n ==> Produced(types[i], files)
  {
    hide Produced, FirstPart;
    if n == 0 {
    } else {
      NoneListed(types, files, n - 1);
      var last := types[n - 1];
      NotFrom(last, files);
      var noFile := files(FirstPart(last)) == [];
      assert |Missing(types, files, n)| == |Missing(types, files, n - 1)| + if noFile then 1 else 0;
      assert |Empty(types, files, n)|
          == |Empty(types, files, n - 1)| + if !noFile && !Produced(last, files) then 1 else 0;
      hide Missing, Empty;
      assert (forall i :: 0 <= i < n ==> Produced(types[i], files))
        <==> (forall i :: 0 <= i < n - 1 ==> Produced(types[i], files)) && Produced(last, files);
    }
  }

  lemma {:induction false} NotFrom(agentType: string, files: Files)
    ensures files(FirstPart(agentType)) == [] ==> !Produced(agentType, files)
  {
  }

  /** A role has produced something when one of its files is not empty; the review passes exactly
      when every dispatched type has, and says which have not. */
  method ReviewArtifacts(types: seq<string>, files: Files) returns (v: Verdict)
    ensures v.passed <==> forall i :: 0 <= i < |types| ==> Produced(types[i], files)
    ensures v.missing == Missing(types, files, |types|) && v.empty == Empty(types, files, |types|)
    ensures v.perAgent.Keys == (set t | t in types) && forall t :: t in v.perAgent ==>
        v.perAgent[t] == |files(FirstPart(t))|
  {
    hide Produced, FirstPart;
    var perAgent: map<string, nat> := map[];
    var missing: seq<string>, empty: seq<string> := [], [];
    for i := 0 to |types|
      invariant missing == Missing(types, files, i) && empty == Empty(types, files, i)
      invariant perAgent.Keys == (set j | 0 <= j < i :: types[j])
      invariant forall t :: t in perAgent ==> perAgent[t] == |files(FirstPart(t))|
    {
      var agentType := types[i];
      var sizes := files(FirstPart(agentType));
      perAgent := perAgent[agentType := |sizes|];
      if sizes == [] {
        missing := missing + [agentType];
      } else {
        var some := HasNonEmpty(agentType, files);
        if !some {
          empty := empty + [agentType];
        }
      }
    }
    NoneListed(types, files, |types|);
    v := Verdict(missing == [] && empty == [], missing, empty, perAgent);
  }

  method HasNonEmpty(agentType: string, files: Files) returns (some: bool)
    ensures some <==> Produced(agentType, files)
  {
    var sizes := files(FirstPart(agentType));
    some := false;
    for k := 0 to |sizes|
      invariant some <==> exists j :: 0 <= j < k && sizes[j] > 0
    {
      if sizes[k] > 0 { some := true; }
    }
  }

  function JoinedBy(parts: seq<string>, sep: string): string {
    if |parts| == 0 then "" else if |parts| == 1 then parts[0] else parts[0] + sep + JoinedBy(parts[1..], sep)
  }

  function Indented(names: seq<string>): seq<string> {
    if names == [] then [] else ["  - " + names[0]] + Indented(names[1..])
  }

  /** The working directory: None when there is none to look for; `names` are its files, None
      when it does not exist. */
  datatype Place = Place(files: Files, names: Option<seq<string>>)

  function Warning(managed: bool, dispatched: seq<string>, place: Option<Place>): string {
    if !managed then ""
    else if place.Some? && place.value.names.Some? then
      var names := place.value.names.value;
      if names == [] then "\n\n⚠️ 警告：工作目录中没有产出文件。请确认 Worker 是否已正确执行任务。"
      else "\n\n已验证产出物（" + PrintNat(|names|) + " 个文件）：\n" + JoinedBy(Indented(names), "\n")
    else if dispatched != [] then "\n\n⚠️ 警告：已分派 Agent 但找不到工作目录。产出物可能未正确保存。"
    else ""
  }

  /** Finalize is refused: the review is made, and some dispatched type has produced nothing. */
  ghost predicate Refused(managed: bool, dispatched: seq<string>, place: Option<Place>) {
    && managed && dispatched != [] && place.Some?
    && exists i :: 0 <= i < |dispatched| && !Produced(dispatched[i], place.value.files)
  }

  /** What finalize answers. */
  ghost function FinalizeAnswer(summary: string, managed: bool, dispatched: seq<string>, place: Option<Place>): string {
    if Refused(managed, dispatched, place) then Refusal(Missing(dispatched, place.value.files, |dispatched|))
    else HEAD + (summary + Warning(managed, dispatched, place))
  }

  function Refusal(missing: seq<string>): string {
    FAILED_MARK + " 审查未通过，以下已分派 Agent 未产出文件: " + JoinedBy(missing, ", ")
    + "。请用 dispatch_agent 让它们产出后再次 finalize。"
  }

  method ToolFinalize(summary: string, managed: bool, dispatched: seq<string>, place: Option<Place>)
        returns (text: string)
    ensures text == FinalizeAnswer(summary, managed, dispatched, place)
  {
    hide Contains, Warning, JoinedBy, Produced, Missing;
    if managed && dispatched != [] && place.Some? {
      var review := ReviewArtifacts(dispatched, place.value.files);
      if !review.passed {
        return Refusal(review.missing);
      }
    }
    return HEAD + (summary + Warning(managed, dispatched, place));
  }

  /** What the loop takes for a refusal is a refusal or an answer whose summary or file names quote the mark. */
  lemma {:induction false} MarkedExactlyWhen(summary: string, managed: bool, dispatched: seq<string>,
        place: Option<Place>)
    ensures Contains(FinalizeAnswer(summary, managed, dispatched, place), FAILED_MARK) <==>
      Refused(managed, dispatched, place) || Contains(summary + Warning(managed, dispatched, place), FAILED_MARK)
  {
    hide Contains, Warning, JoinedBy, Produced, Missing;
    if Refused(managed, dispatched, place) {
      var missing := Missing(dispatched, place.value.files, |dispatched|);
      var rest := " 审查未通过，以下已分派 Agent 未产出文件: " + JoinedBy(missing, ", ")
        + "。请用 dispatch_agent 让它们产出后再次 finalize。";
      assert Refusal(missing) == FAILED_MARK + rest;
      StartsWith(FAILED_MARK, rest);
    }
    HeadHasNoMark(summary + Warning(managed, dispatched, place));
  }

  lemma {:induction false} StartsWith(m: string, rest: string)
    ensures Contains(m + rest, m)
  {
    assert OccursAt(m + rest, m, 0);
  }

  lemma {:induction false} MarkAt(s: string, i: nat)
    ensures OccursAt(s, FAILED_MARK, i) ==> i + 1 < |s| && s[i] == '[' && s[i + 1] == 'R'
  {
    if OccursAt(s, FAILED_MARK, i) {
      assert s[i..i + |FAILED_MARK|][0] == '[' && s[i..i + |FAILED_MARK|][1] == 'R';
    }
  }

  /** The mark cannot start within the heading, so it is found only in what follows. */
  lemma {:induction false} HeadHasNoMark(rest: string)
    ensures Contains(HEAD + rest, FAILED_MARK) <==> Contains(rest, FAILED_MARK)
  {
    var s := HEAD + rest;
    assert HEAD[1] == 'F' && forall i :: 0 < i < |HEAD| ==> HEAD[i] != '[';
    forall i: nat | i < |HEAD| ensures !OccursAt(s, FAILED_MARK, i) {
      MarkAt(s, i);
      assert s[i] == HEAD[i] && s[1] == 'F';
    }
    InSecond(HEAD, rest, FAILED_MARK);
  }
}
