/** The editor's search for an id not yet in use: the base id, or the base id with the least free suffix. */
module FreshIds {
  import opened WorkflowDefinitions

  function DigitChar(k: nat): (c: char)
    requires k < 10
    ensures '0' <= c <= '9'
  {
    '0' + k as char
  }

  /** A number in decimal. */
  function Decimal(n: nat): (s: string)
    ensures |s| > 0 && forall i :: 0 <= i < |s| ==> '0' <= s[i] <= '9'
  {
    if n < 10 then [DigitChar(n)] else Decimal(n / 10) + [DigitChar(n % 10)]
  }

  function ReadDecimal(s: string): nat
    requires forall i :: 0 <= i < |s| ==> '0' <= s[i] <= '9'
  {
    if s == [] then 0 else 10 * ReadDecimal(s[..|s| - 1]) + (s[|s| - 1] - '0') as nat
  }

  lemma {:induction false} ReadBack(n: nat)
    ensures ReadDecimal(Decimal(n)) == n
  {
    var s := Decimal(n);
    if n < 10 {
      assert s[..|s| - 1] == [];
    } else {
      ReadBack(n / 10);
      assert s[..|s| - 1] == Decimal(n / 10);
    }
  }

  /** Digits stand in the usual order, the last one for the units. */
  lemma DecimalDigits(n: nat)
    ensures n < 10 ==> Decimal(n) == ["0123456789"[n]]
    ensures n >= 10 ==> Decimal(n) == Decimal(n / 10) + Decimal(n % 10)
  {
  }

  function Suffixed(baseId: string, suffix: nat): string {
    baseId + "-" + Decimal(suffix)
  }

  lemma SuffixesDiffer(baseId: string, j: nat, k: nat)
    requires Suffixed(baseId, j) == Suffixed(baseId, k)
    ensures j == k
  {
    assert Suffixed(baseId, j)[|baseId| + 1..] == Decimal(j);
    assert Suffixed(baseId, k)[|baseId| + 1..] == Decimal(k);
    ReadBack(j);
    ReadBack(k);
  }

  /** The least suffix from 2 on that gives an unused id. */
  ghost predicate IsLeastFreeSuffix(baseId: string, existingIds: set<string>, k: nat) {
    && 2 <= k && Suffixed(baseId, k) !in existingIds
    && forall j :: 2 <= j < k ==> Suffixed(baseId, j) in existingIds
  }

  /** The first free id: the base id if it is free, else the one with the least free suffix. */
  ghost predicate IsFirstFree(baseId: string, existingIds: set<string>, id: string) {
    if baseId !in existingIds then id == baseId
    else exists k :: IsLeastFreeSuffix(baseId, existingIds, k) && id == Suffixed(baseId, k)
  }

  method FirstFreeId(baseId: string, existingIds: set<string>) returns (id: string)
    ensures IsFirstFree(baseId, existingIds, id) && id !in existingIds
    ensures baseId !in existingIds ==> id == baseId
    ensures baseId in existingIds ==>
              exists k: nat :: 2 <= k && id == baseId + "-" + Decimal(k)
                               && forall j :: 2 <= j < k ==> baseId + "-" + Decimal(j) in existingIds
  {
    if baseId !in existingIds {
      return baseId;
    }
    var suffix := 2;
    ghost var untried := existingIds;
    while Suffixed(baseId, suffix) in existingIds
      invariant 2 <= suffix
      invariant forall j :: 2 <= j < suffix ==> Suffixed(baseId, j) in existingIds
      invariant untried == existingIds - set j | 2 <= j < suffix :: Suffixed(baseId, j)
      decreases untried
    {
      assert Suffixed(baseId, suffix) in untried by {
        forall j | 2 <= j < suffix ensures Suffixed(baseId, j) != Suffixed(baseId, suffix) {
          if Suffixed(baseId, j) == Suffixed(baseId, suffix) {
            SuffixesDiffer(baseId, j, suffix);
          }
        }
      }
      untried := untried - {Suffixed(baseId, suffix)};
      suffix := suffix + 1;
    }
    assert forall j :: 2 <= j <= suffix ==> Suffixed(baseId, j) == baseId + "-" + Decimal(j);
    return Suffixed(baseId, suffix);
  }

  /** An id for a new node of a type whose slug is given; it collides with no node of the definition. */
  method CreateNodeId(typeSlug: string, d: WorkflowDefinition) returns (id: string)
    ensures IsFirstFree(if typeSlug == "" then "node" else typeSlug, NodeIds(d), id)
    ensures forall n: WorkflowNode :: UniqueNodeIds(d) && n.id == id ==> UniqueNodeIds(d.(nodes := d.nodes + [n]))
  {
    id := FirstFreeId(if typeSlug == "" then "node" else typeSlug, NodeIds(d));
    forall i | 0 <= i < |d.nodes| ensures d.nodes[i].id != id {
      assert d.nodes[i] in d.nodes;
    }
  }
}
