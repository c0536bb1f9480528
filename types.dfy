/**
 * The shapes shared by the server route and the browser side: an audit
 * issue with its affected nodes, and a suggested solution.
 */
module AccessibilityTypes {

  datatype Option<T> = None | Some(value: T)

  /** The four severities an issue can carry. */
  datatype Impact = Critical | Serious | Moderate | Minor

  /** The string the audit engine and the UI use for an impact. */
  function ImpactName(i: Impact): (name: string)
    ensures ParseImpact(name) == Some(i)
  {
    match i
    case Critical => "critical"
    case Serious => "serious"
    case Moderate => "moderate"
    case Minor => "minor"
  }

  /** The impact a string names, if any: the inverse of ImpactName. */
  function ParseImpact(s: string): Option<Impact>
  {
    if s == "critical" then Some(Critical)
    else if s == "serious" then Some(Serious)
    else if s == "moderate" then Some(Moderate)
    else if s == "minor" then Some(Minor)
    else None
  }

  /**
   * One offending element: its markup, its selector path, the engine's
   * explanation and an optional screenshot (absent is JSON `null`).
   */
  datatype Node = Node(html: string, target: seq<string>, failureSummary: string, screenshot: Option<string>)

  /** One failed rule with the elements it failed on. */
  datatype Issue = Issue(
    id: string,
    impact: Impact,
    description: string,
    help: string,
    helpUrl: string,
    tags: seq<string>,
    nodes: seq<Node>)

  datatype CodeExample = CodeExample(before: string, after: string)

  datatype Solution = Solution(title: string, description: string, codeExample: CodeExample, wcagCriteria: seq<string>)

  /** The issues of `vs` whose impact is `i`, in their original order.  */
  function WithImpact(vs: seq<Issue>, i: Impact): (r: seq<Issue>)
    ensures |r| <= |vs|
    ensures forall k | 0 <= k < |r| :: r[k].impact == i && r[k] in vs
    decreases |vs|
  {
    if |vs| == 0 then []
    else if vs[0].impact == i then [vs[0]] + WithImpact(vs[1..], i)
    else WithImpact(vs[1..], i)
  }

  /** `vs.filter(v => v.impact === name).length` */
  function CountImpact(vs: seq<Issue>, i: Impact): (count: nat)
    ensures count <= |vs|
    ensures count == 0 <==> forall k | 0 <= k < |vs| :: vs[k].impact != i
  {
    WithImpactExactly(vs, i);
    assert forall k | 0 <= k < |vs| && vs[k].impact == i :: vs[k] in WithImpact(vs, i);
    |WithImpact(vs, i)|
  }

  /** Because the impact type has exactly four values, the four counts add up to the total. */
  lemma {:induction false} CountsCoverAll(vs: seq<Issue>)
    ensures CountImpact(vs, Critical) + CountImpact(vs, Serious) + CountImpact(vs, Moderate) + CountImpact(vs, Minor) == |vs|
    decreases |vs|
  {
    if |vs| > 0 {
      CountsCoverAll(vs[1..]);
    }
  }

  /** An issue has the impact `i` exactly when it survives the filter, and the filter keeps order. */
  lemma {:induction false} WithImpactExactly(vs: seq<Issue>, i: Impact)
    ensures forall v :: v in WithImpact(vs, i) <==> v in vs && v.impact == i
    ensures IsSubsequence(WithImpact(vs, i), vs)
    decreases |vs|
  {
    if |vs| > 0 {
      WithImpactExactly(vs[1..], i);
      assert vs == [vs[0]] + vs[1..];
    }
  }

  /** `sub` is `s` with some elements dropped and the rest in their original order. */
  predicate IsSubsequence<T(==)>(sub: seq<T>, s: seq<T>)
    decreases |s|
  {
    if |sub| == 0 then true
    else if |s| == 0 then false
    else if sub[0] == s[0] then IsSubsequence(sub[1..], s[1..])
    else IsSubsequence(sub, s[1..])
  }
}
