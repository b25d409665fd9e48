/** Types and text helpers shared by every component of the model. */
module Common {

  datatype Option<+T> = None | Some(value: T)

  /** A GUID is modelled by its printed form: 36 lower-case hexadecimal digits and dashes. */
  predicate IsGuidText(s: string) {
    |s| == 36 && forall i | 0 <= i < |s| :: '0' <= s[i] <= '9' || 'a' <= s[i] <= 'f' || s[i] == '-'
  }

  type Guid = s: string | IsGuidText(s) witness "00000000-0000-0000-0000-000000000000"

  predicate IsWhiteSpace(c: char) {
    c == ' ' || '\t' <= c <= '\r'
  }

  /** string.IsNullOrWhiteSpace, for a string that is present. */
  predicate Blank(s: string) {
    forall i | 0 <= i < |s| :: IsWhiteSpace(s[i])
  }

  function Max(a: int, b: int): int {
    if a < b then b else a
  }

  /** Equal concatenations whose first parts have equal length agree part by part. */
  lemma SplitAtLength<T>(a: seq<T>, b: seq<T>, c: seq<T>, d: seq<T>)
    requires a + b == c + d && |a| == |c|
    ensures a == c && b == d
  {
    assert a == (a + b)[..|a|] == (c + d)[..|c|] == c;
    assert b == (a + b)[|a|..] == (c + d)[|c|..] == d;
  }

  datatype Tenant = Tenant(id: Guid, slug: string)

  function BySlug(tenants: seq<Tenant>, slug: string): (r: Option<Tenant>)
    ensures r.Some? ==> r.value in tenants && r.value.slug == slug
    ensures r.None? ==> forall t | t in tenants :: t.slug != slug
  {
    if tenants == [] then None
    else if tenants[0].slug == slug then Some(tenants[0])
    else BySlug(tenants[1..], slug)
  }

  lemma Regroup<T>(a: seq<T>, b: seq<T>, c: seq<T>)
    ensures (a + b) + c == a + (b + c)
  {
  }

  /** Taking the last element off a concatenation takes it off the second part. */
  lemma ConcatLast<T>(a: seq<T>, b: seq<T>)
    requires b != []
    ensures (a + b)[..|a + b| - 1] == a + b[..|b| - 1] && (a + b)[|a + b| - 1] == b[|b| - 1]
  {
  }
}
