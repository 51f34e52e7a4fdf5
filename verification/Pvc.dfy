/** The --pvc parameter: told apart as an existing claim or a dynamic provision,
    checked, and rewritten with every field present. */
module Pvc {
  import opened Common
  import opened Decimal
  import opened GoStrings

  datatype PvcError =
    | WrongFieldCount | NoClaimName | NoMountPath | NoSize
    | BadStorageClass | BadSize | BadAccessMode

  // ----- the checks

  predicate IsSign(c: char) { c == '+' || c == '-' }
  predicate IsNumeric(c: char) { IsDigit(c) || c == '.' }
  predicate IsUnit(c: char) {
    c == 'e' || c == 'E' || c == 'i' || c == 'n' || c == 'u' || c == 'm'
    || c == 'k' || c == 'K' || c == 'M' || c == 'G' || c == 'T' || c == 'P'
  }
  predicate IsLabelEnd(c: char) { 'a' <= c <= 'z' || IsDigit(c) }

  ghost predicate AllOf(s: string, from: nat, upto: nat, class_: char -> bool) {
    from <= upto <= |s| && forall i :: from <= i < upto ==> class_(s[i])
  }

  /** ^([+-]?[0-9.]+)([eEinumkKMGTP]*[-+]?[0-9]*)$ : the text can be cut at a, b, c
      and d into optional sign, number, unit, optional sign and digits. */
  ghost predicate MatchesRequest(s: string) {
    exists a: nat, b: nat, c: nat, d: nat :: CutsRequest(s, a, b, c, d)
  }

  ghost predicate CutsRequest(s: string, a: nat, b: nat, c: nat, d: nat) {
    && a <= 1 && a < b <= c <= d <= c + 1 && d <= |s|
    && (a == 1 ==> IsSign(s[0]))
    && AllOf(s, a, b, IsNumeric) && AllOf(s, b, c, IsUnit)
    && (d == c + 1 ==> IsSign(s[c]))
    && AllOf(s, d, |s|, IsDigit)
  }

  /** The end of the longest stretch of a character class. */
  function Skip(s: string, from: nat, class_: char -> bool): (end: nat)
    requires from <= |s|
    ensures from <= end <= |s|
    ensures forall i :: from <= i < end ==> class_(s[i])
    ensures end < |s| ==> !class_(s[end])
    decreases |s| - from
  {
    if from < |s| && class_(s[from]) then Skip(s, from + 1, class_) else from
  }

  /** Matching by taking the longest stretch each time. */
  predicate IsResourceRequest(s: string) {
    var a := if s != "" && IsSign(s[0]) then 1 else 0;
    var b := Skip(s, a, IsNumeric);
    var c := Skip(s, b, IsUnit);
    var d := if c < |s| && IsSign(s[c]) then c + 1 else c;
    a < b && Skip(s, d, IsDigit) == |s|
  }

  /** A stretch that cannot be extended is the longest one. */
  lemma {:induction false} SkipEnds(s: string, from: nat, upto: nat, class_: char -> bool)
    requires AllOf(s, from, upto, class_) && (upto < |s| ==> !class_(s[upto]))
    ensures Skip(s, from, class_) == upto
    decreases upto - from
  {
    if from < upto {
      SkipEnds(s, from + 1, upto, class_);
    }
  }

  /** Any way of cutting the text is found by the greedy one. */
  lemma GreedyFinds(s: string, a: nat, b: nat, c: nat, d: nat)
    requires CutsRequest(s, a, b, c, d)
    ensures IsResourceRequest(s)
  {
    var end := Skip(s, a, IsNumeric);
    if b < end {
      NumberTakesAll(s, a, b, c, d);
    } else {
      SkipEnds(s, b, c, IsUnit);
      SkipEnds(s, d, |s|, IsDigit);
    }
  }

  /** A number that could go on leaves only digits after it. */
  lemma NumberTakesAll(s: string, a: nat, b: nat, c: nat, d: nat)
    requires CutsRequest(s, a, b, c, d) && b < |s| && IsNumeric(s[b])
    ensures IsResourceRequest(s)
  {
    assert c == b && d == c;
    SkipEnds(s, a, |s|, IsNumeric);
  }

  /** The greedy matcher decides the pattern. */
  lemma RequestDecided(s: string)
    ensures IsResourceRequest(s) <==> MatchesRequest(s)
  {
    if IsResourceRequest(s) {
      var a := if IsSign(s[0]) then 1 else 0;
      var b := Skip(s, a, IsNumeric);
      var c := Skip(s, b, IsUnit);
      assert CutsRequest(s, a, b, c, if c < |s| && IsSign(s[c]) then c + 1 else c);
    }
    if MatchesRequest(s) {
      var a: nat, b: nat, c: nat, d: nat :| CutsRequest(s, a, b, c, d);
      GreedyFinds(s, a, b, c, d);
    }
  }

  /** [a-z0-9]([-a-z0-9]*[a-z0-9])? */
  predicate IsDnsLabel(s: string) {
    && s != "" && IsLabelEnd(s[0]) && IsLabelEnd(s[|s| - 1])
    && forall i :: 0 <= i < |s| ==> IsLabelEnd(s[i]) || s[i] == '-'
  }

  /** The regular expression, read as one end, or an end, a middle and an end. */
  ghost predicate MatchesLabel(s: string) {
    || (exists a :: IsLabelEnd(a) && s == [a])
    || (exists a, middle, z :: IsLabelEnd(a) && IsLabelEnd(z) && s == [a] + middle + [z]
          && forall c :: c in middle ==> IsLabelEnd(c) || c == '-')
  }

  lemma LabelDecided(s: string)
    ensures IsDnsLabel(s) <==> MatchesLabel(s)
  {
    if IsDnsLabel(s) && |s| > 1 {
      var middle := s[1..|s| - 1];
      assert s == [s[0]] + middle + [s[|s| - 1]];
    } else if IsDnsLabel(s) {
      assert s == [s[0]];
    }
  }

  /** The letters of the unit class, spelled out. */
  lemma UnitLetters(c: char)
    ensures IsUnit(c) <==> c in "eEinumkKMGTP"
  {
    var letters := "eEinumkKMGTP";
    assert letters[0] == 'e' && letters[1] == 'E' && letters[2] == 'i' && letters[3] == 'n';
    assert letters[4] == 'u' && letters[5] == 'm' && letters[6] == 'k' && letters[7] == 'K';
    assert letters[8] == 'M' && letters[9] == 'G' && letters[10] == 'T' && letters[11] == 'P';
  }

  predicate IsAccessMode(s: string) { s == "" || s == "ro" || s == "rw" }

  // ----- one parameter

  /** extrapolateParamType */
  predicate IsExisting(fields: seq<string>)
    requires 2 <= |fields| <= 4
  {
    if |fields| == 2 then true
    else if |fields| == 4 then false
    else if fields[0] == "" then false
    else if IsResourceRequest(fields[1]) then false
    else true
  }

  function Pad(fields: seq<string>, length: nat): seq<string> {
    if |fields| + 1 == length then fields + [""] else fields
  }

  function CheckExisting(f: seq<string>): Option<PvcError>
    requires |f| == 3
  {
    if f[0] == "" then Some(NoClaimName)
    else if f[1] == "" then Some(NoMountPath)
    else if !IsAccessMode(f[2]) then Some(BadAccessMode)
    else None
  }

  function CheckDynamic(f: seq<string>): Option<PvcError>
    requires |f| == 4
  {
    if f[1] == "" then Some(NoSize)
    else if f[2] == "" then Some(NoMountPath)
    else if f[0] != "" && !IsDnsLabel(f[0]) then Some(BadStorageClass)
    else if !IsResourceRequest(f[1]) then Some(BadSize)
    else if !IsAccessMode(f[3]) then Some(BadAccessMode)
    else None
  }

  /** The rewritten parameter, which is produced even when a check fails. */
  function Rebuilt(param: string): (string, Option<PvcError>) {
    var fields := Split(param, ':');
    if |fields| < 2 || |fields| > 4 then ("", Some(WrongFieldCount))
    else if IsExisting(fields) then
      var f := Pad(fields, 3);
      (Join(f, ':'), CheckExisting(f))
    else
      var f := Pad(fields, 4);
      (Join(f, ':'), CheckDynamic(f))
  }

  function Normalise(param: string): Result<string, PvcError> {
    match Rebuilt(param)
    case (out, None) => Ok(out)
    case (_, Some(e)) => Err(e)
  }

  // ----- which parameters are accepted

  /** Two fields, or three of which the first is given and the second is no size. */
  ghost predicate ReadAsExisting(f: seq<string>) {
    |f| == 2 || (|f| == 3 && f[0] != "" && !MatchesRequest(f[1]))
  }

  /** claim:mount[:mode] or [class]:size:mount[:mode]. */
  ghost function MountPath(f: seq<string>): string
    requires 2 <= |f| <= 4
  {
    if ReadAsExisting(f) then f[1] else f[2]
  }

  ghost function AccessMode(f: seq<string>): string
    requires 2 <= |f| <= 4
  {
    if ReadAsExisting(f) then (if |f| == 3 then f[2] else "") else if |f| == 4 then f[3] else ""
  }

  /** What is wrong with the fields; several things can be. */
  ghost predicate Fault(f: seq<string>, e: PvcError) {
    if |f| < 2 || |f| > 4 then e == WrongFieldCount
    else
      match e
      case WrongFieldCount => false
      case NoClaimName => ReadAsExisting(f) && f[0] == ""
      case NoSize => !ReadAsExisting(f) && f[1] == ""
      case NoMountPath => MountPath(f) == ""
      case BadStorageClass => !ReadAsExisting(f) && f[0] != "" && !MatchesLabel(f[0])
      case BadSize => !ReadAsExisting(f) && !MatchesRequest(f[1])
      case BadAccessMode => AccessMode(f) != "" && AccessMode(f) != "ro" && AccessMode(f) != "rw"
  }

  /** The order in which faults are reported. */
  function Precedence(e: PvcError): nat {
    match e
    case WrongFieldCount => 0
    case NoClaimName | NoSize => 1
    case NoMountPath => 2
    case BadStorageClass => 3
    case BadSize => 4
    case BadAccessMode => 5
  }

  ghost predicate Faultless(f: seq<string>) { forall d :: !Fault(f, d) }

  ghost predicate FirstFault(f: seq<string>, e: PvcError) {
    Fault(f, e) && forall d :: Fault(f, d) ==> Precedence(e) <= Precedence(d)
  }

  /** A parameter is accepted exactly when it has no fault, and otherwise rejected with
      the first of its faults. */
  lemma Decided(param: string, e: PvcError)
    ensures var f := Split(param, ':');
            && (Normalise(param).Ok? <==> Faultless(f))
            && (Normalise(param) == Err(e) <==> FirstFault(f, e))
  {
    var f := Split(param, ':');
    if 2 <= |f| <= 4 {
      FormDecided(f);
      var found := if IsExisting(f) then CheckExisting(Pad(f, 3)) else CheckDynamic(Pad(f, 4));
      assert Normalise(param).Ok? <==> found.None?;
      assert Normalise(param) == Err(e) <==> found == Some(e);
      if ReadAsExisting(f) {
        ExistingDecided(f, e);
      } else {
        DynamicDecided(f, e);
      }
    } else {
      assert Fault(f, WrongFieldCount);
      assert Normalise(param) == Err(WrongFieldCount);
    }
  }

  lemma FormDecided(f: seq<string>)
    requires 2 <= |f| <= 4
    ensures IsExisting(f) <==> ReadAsExisting(f)
  {
    RequestDecided(f[1]);
  }

  lemma ExistingDecided(f: seq<string>, e: PvcError)
    requires 2 <= |f| <= 3 && ReadAsExisting(f)
    ensures var found := CheckExisting(Pad(f, 3));
            (found.None? <==> Faultless(f)) && (found == Some(e) <==> FirstFault(f, e))
  {
    var found := CheckExisting(Pad(f, 3));
    assert found.Some? ==> FirstFault(f, found.value);
  }

  lemma DynamicDecided(f: seq<string>, e: PvcError)
    requires 3 <= |f| <= 4 && !ReadAsExisting(f)
    ensures var found := CheckDynamic(Pad(f, 4));
            (found.None? <==> Faultless(f)) && (found == Some(e) <==> FirstFault(f, e))
  {
    RequestDecided(f[1]);
    LabelDecided(f[0]);
    var found := CheckDynamic(Pad(f, 4));
    assert found.Some? ==> FirstFault(f, found.value);
  }

  /** Whether accepted or not, a parameter of 2 to 4 fields is rewritten to 3 fields in
      the one form and 4 in the other: its own, with an empty one added if it is missing. */
  lemma RebuiltFields(param: string)
    requires 2 <= |Split(param, ':')| <= 4
    ensures var f, out := Split(param, ':'), Split(Rebuilt(param).0, ':');
            && |out| == (if ReadAsExisting(f) then 3 else 4)
            && (out == f || out == f + [""])
  {
    var f := Split(param, ':');
    FormDecided(f);
    SplitJoin(if IsExisting(f) then Pad(f, 3) else Pad(f, 4), ':');
  }

  /** An accepted parameter is rewritten to exactly 3 fields when it names an existing
      claim and 4 when it asks for a dynamic one: its own fields, with the last one
      left empty if it was missing. */
  lemma AcceptedFields(param: string)
    requires Normalise(param).Ok?
    ensures var fields, out := Split(param, ':'), Split(Normalise(param).value, ':');
            && 2 <= |fields| <= 4
            && |out| == (if IsExisting(fields) then 3 else 4)
            && (out == fields || out == fields + [""])
  {
    var fields := Split(param, ':');
    var f := if IsExisting(fields) then Pad(fields, 3) else Pad(fields, 4);
    SplitJoin(f, ':');
  }

  /** Rewriting again changes nothing and keeps the classification, except for a
      two-field parameter whose mount path looks like a size: that one is then
      rejected for lack of a mount path. */
  lemma NormaliseIdempotent(param: string)
    requires Normalise(param).Ok?
    ensures var fields, out := Split(param, ':'), Normalise(param).value;
            if |fields| == 2 && IsResourceRequest(fields[1]) then
              Normalise(out) == Err(NoMountPath) && !IsExisting(Split(out, ':'))
            else
              Normalise(out) == Ok(out) && IsExisting(Split(out, ':')) == IsExisting(fields)
  {
    AcceptedFields(param);
    var fields, out := Split(param, ':'), Normalise(param).value;
    JoinSplit(out, ':');
  }

  /** How the two parameters are rewritten that such a claim goes through. */
  lemma SizeLikeMountPath(claim: string, path: string)
    requires claim != "" && ':' !in claim && ':' !in path && IsResourceRequest(path)
    ensures Normalise(Join([claim, path], ':')) == Ok(Join([claim, path, ""], ':'))
    ensures Normalise(Join([claim, path, ""], ':')) == Err(NoMountPath)
  {
    SplitJoin([claim, path], ':');
    SplitJoin([claim, path, ""], ':');
    assert Pad([claim, path], 3) == [claim, path, ""];
    assert Pad([claim, path, ""], 4) == [claim, path, "", ""];
  }

  lemma FiveGiIsASize()
    ensures IsResourceRequest("5Gi")
  {
    assert CutsRequest("5Gi", 0, 1, 3, 3);
    GreedyFinds("5Gi", 0, 1, 3, 3);
  }

  lemma JoinThree(a: string, b: string, c: string)
    ensures Join([a, b], ':') == a + ":" + b
    ensures Join([a, b, c], ':') == a + ":" + b + ":" + c
  {
    assert [a, b][1..] == [b] && [a, b, c][1..] == [b, c] && [b, c][1..] == [c];
    assert Join([b, c], ':') == b + ":" + c;
  }

  /** Concretely: the claim p mounted at 5Gi, p:5Gi, becomes p:5Gi: and is then rejected. */
  lemma NotIdempotent()
    ensures Normalise("p:5Gi") == Ok("p:5Gi:") && Normalise("p:5Gi:") == Err(NoMountPath)
  {
    FiveGiIsASize();
    JoinThree("p", "5Gi", "");
    SizeLikeMountPath("p", "5Gi");
    assert "p" + ":" + "5Gi" == "p:5Gi" && "p" + ":" + "5Gi" + ":" + "" == "p:5Gi:";
  }

  // ----- the list of parameters

  class SubmitArgs {
    var persistentVolumes: seq<string>

    constructor (volumes: seq<string>)
      ensures persistentVolumes == volumes
    {
      persistentVolumes := volumes;
    }

    /** handleExistingPvc */
    method HandleExistingPvc(params: seq<string>) returns (rebuilt: string, err: Option<PvcError>)
      requires |params| == 2 || |params| == 3
      ensures rebuilt == Join(Pad(params, 3), ':') && err == CheckExisting(Pad(params, 3))
    {
      var f := params;
      if |f| == 2 {
        f := f + [""];
      }
      if f[0] == "" {
        err := Some(NoClaimName);
      } else if f[1] == "" {
        err := Some(NoMountPath);
      } else {
        err := if IsAccessMode(f[2]) then None else Some(BadAccessMode);
      }
      rebuilt := Join(f, ':');
    }

    /** handleDynamicProvisionPvc */
    method HandleDynamicProvisionPvc(params: seq<string>) returns (rebuilt: string, err: Option<PvcError>)
      requires |params| == 3 || |params| == 4
      ensures rebuilt == Join(Pad(params, 4), ':') && err == CheckDynamic(Pad(params, 4))
    {
      var f := params;
      if |f| == 3 {
        f := f + [""];
      }
      if f[1] == "" {
        err := Some(NoSize);
      } else if f[2] == "" {
        err := Some(NoMountPath);
      } else if f[0] != "" && !IsDnsLabel(f[0]) {
        err := Some(BadStorageClass);
      } else if !IsResourceRequest(f[1]) {
        err := Some(BadSize);
      } else if !IsAccessMode(f[3]) {
        err := Some(BadAccessMode);
      } else {
        err := None;
      }
      rebuilt := Join(f, ':');
    }

    /** On success every parameter is rewritten. On failure the parameters before the
        first rejected one were accepted; a wrong field count leaves the list alone,
        any other error leaves the rewritten parameters up to the rejected one. */
    method HandlePvcParams() returns (err: Option<PvcError>)
      modifies this
      ensures err.None? ==>
                && |persistentVolumes| == |old(persistentVolumes)|
                && forall k :: 0 <= k < |persistentVolumes| ==> Normalise(old(persistentVolumes)[k]) == Ok(persistentVolumes[k])
      ensures err.Some? ==>
                exists k :: 0 <= k < |old(persistentVolumes)|
                  && FailsFirstAt(old(persistentVolumes), k, err.value, persistentVolumes)
    {
      var rebuiltParams: seq<string> := [];
      err := None;
      for k := 0 to |persistentVolumes|
        invariant persistentVolumes == old(persistentVolumes) && |rebuiltParams| == k && err.None?
        invariant forall j :: 0 <= j < k ==> Normalise(persistentVolumes[j]) == Ok(rebuiltParams[j])
      {
        var pvcParams := Split(persistentVolumes[k], ':');
        if |pvcParams| < 2 || |pvcParams| > 4 {
          assert FailsFirstAt(persistentVolumes, k, WrongFieldCount, persistentVolumes);
          return Some(WrongFieldCount);
        }
        var rebuilt;
        if IsExisting(pvcParams) {
          rebuilt, err := HandleExistingPvc(pvcParams);
        } else {
          rebuilt, err := HandleDynamicProvisionPvc(pvcParams);
        }
        assert Rebuilt(persistentVolumes[k]) == (rebuilt, err);
        rebuiltParams := rebuiltParams + [rebuilt];
        if err.Some? {
          assert FailsFirstAt(persistentVolumes, k, err.value, rebuiltParams);
          break;
        }
      }
      persistentVolumes := rebuiltParams;
    }
  }

  /** Parameter k is the first that is rejected, with this error, and `after` is what
      the argument list then holds. */
  ghost predicate FailsFirstAt(before: seq<string>, k: nat, e: PvcError, after: seq<string>)
    requires k < |before|
  {
    && (forall j :: 0 <= j < k ==> Normalise(before[j]).Ok?)
    && Normalise(before[k]) == Err(e)
    && if e == WrongFieldCount then after == before
       else
         && |after| == k + 1 && after[k] == Rebuilt(before[k]).0
         && forall j :: 0 <= j < k ==> Normalise(before[j]) == Ok(after[j])
  }
}
