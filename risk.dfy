/** `parse_risk_level`: the bonds/equities split for each of the four risk levels. */
module Risk {
  import opened Wrappers
  import opened Lex

  datatype Allocation = Allocation(bonds: int, equities: int)

  /** Python's `str.lower` on one character (ASCII letters only). */
  function LowerChar(c: char): char {
    if 'A' <= c <= 'Z' then (c as int - 'A' as int + 'a' as int) as char else c
  }

  /** Python's `str.lower`. */
  function Lower(s: string): (r: string)
    ensures |r| == |s|
    ensures forall i | 0 <= i < |s| :: r[i] == LowerChar(s[i])
  {
    if s == [] then [] else [LowerChar(s[0])] + Lower(s[1..])
  }

  /** The allocation table the four `if` statements encode, keyed by lower-case level. */
  const RiskTable: map<string, Allocation> := map[
    "none" := Allocation(100, 0),
    "low" := Allocation(60, 40),
    "medium" := Allocation(40, 60),
    "high" := Allocation(20, 80)
  ]

  /**
   * The four `if` statements of `parse_risk_level`. `str.lower(None)` raises TypeError;
   * a level matching none of them leaves `bonds` unbound at the `return`.
   */
  function ParseRiskLevel(level: Option<string>): (r: Result<Allocation, Error>)
    ensures level.None? ==> r == Failure(TypeError)
    ensures level.Some? ==> (r.Success? <==> Lower(level.value) in RiskTable)
    ensures level.Some? && r.Failure? ==> r.error == UnboundLocalError("bonds")
    ensures r.Success? ==> r.value == RiskTable[Lower(level.value)]
    ensures r.Success? ==> r.value.bonds + r.value.equities == 100
    ensures r.Success? ==> 0 <= r.value.bonds <= 100 && 0 <= r.value.equities <= 100
  {
    match level
    case None => Failure(TypeError)
    case Some(text) =>
      var lowered := Lower(text);
      if lowered == "none" then Success(Allocation(100, 0))
      else if lowered == "low" then Success(Allocation(60, 40))
      else if lowered == "medium" then Success(Allocation(40, 60))
      else if lowered == "high" then Success(Allocation(20, 80))
      else Failure(UnboundLocalError("bonds"))
  }

  lemma {:induction false} LowerIdempotent(s: string)
    ensures Lower(Lower(s)) == Lower(s)
  {
    var once := Lower(s);
    assert forall i | 0 <= i < |s| :: Lower(once)[i] == once[i];
  }

  /** The letter case of the level does not matter. */
  lemma RiskLevelIgnoresCase(s: string, t: string)
    requires Lower(s) == Lower(t)
    ensures ParseRiskLevel(Some(s)) == ParseRiskLevel(Some(t))
    ensures ParseRiskLevel(Some(s)) == ParseRiskLevel(Some(Lower(s)))
  {
    LowerIdempotent(s);
  }
}
