/** Small shared vocabulary for the pipeline model. */
module Common {

  /** A value that may be absent: a nullable column, a failed parse. */
  datatype Option<+T> = None | Some(value: T)

  /** No id occurs twice: what a primary-key column guarantees. */
  predicate Distinct(ids: seq<nat>)
  {
    forall i, j :: 0 <= i < j < |ids| ==> ids[i] != ids[j]
  }

  /** Putting a new id in front of distinct ids keeps them distinct. */
  lemma DistinctCons(x: nat, ids: seq<nat>)
    requires Distinct(ids) && forall j :: 0 <= j < |ids| ==> ids[j] != x
    ensures Distinct([x] + ids)
  {
    var s := [x] + ids;
    forall i, j | 0 <= i < j < |s|
      ensures s[i] != s[j]
    {
      assert s[j] == ids[j - 1];
      if i > 0 {
        assert s[i] == ids[i - 1];
      }
    }
  }

  function DigitChar(d: nat): (c: char)
    requires d < 10
    ensures '0' <= c <= '9'
  {
    ('0' as int + d) as char
  }

  /** Python's str() of a non-negative int: its decimal digits, no leading zero. */
  function NatToString(n: nat): (s: string)
    ensures |s| >= 1
    ensures forall i :: 0 <= i < |s| ==> '0' <= s[i] <= '9'
    ensures |s| > 1 ==> s[0] != '0'
    decreases n
  {
    if n < 10 then [DigitChar(n)] else NatToString(n / 10) + [DigitChar(n % 10)]
  }

  /** Reads a non-empty run of decimal digits back into a number. */
  function ParseNat(s: string): (r: Option<nat>)
    ensures r.Some? <==> |s| >= 1 && forall i :: 0 <= i < |s| ==> '0' <= s[i] <= '9'
    decreases |s|
  {
    if |s| == 0 || !('0' <= s[|s| - 1] <= '9') then None
    else if |s| == 1 then Some(s[0] as int - '0' as int)
    else match ParseNat(s[..|s| - 1])
      case None => None
      case Some(m) => Some(m * 10 + (s[|s| - 1] as int - '0' as int))
  }

  /** Decimal printing is undone by parsing, so str(id) names exactly one id. */
  lemma {:induction false} ParseNatToString(n: nat)
    ensures ParseNat(NatToString(n)) == Some(n)
    decreases n
  {
    if n >= 10 {
      var s := NatToString(n);
      ParseNatToString(n / 10);
      assert s[..|s| - 1] == NatToString(n / 10);
    }
  }

  lemma NatToStringInjective(a: nat, b: nat)
    ensures NatToString(a) == NatToString(b) ==> a == b
  {
    ParseNatToString(a);
    ParseNatToString(b);
  }
}
