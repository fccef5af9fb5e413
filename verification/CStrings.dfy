/** NUL-terminated strings and the library searches that ws_server.c runs on them. */
module CStrings {
  import opened Basics

  /** The characters before the first NUL: what strstr sees of a buffer. */
  function CString(s: string): (t: string)
    ensures t <= s
  {
    if s == "" || s[0] == '\0' then "" else [s[0]] + CString(s[1..])
  }

  lemma {:induction false} CStringPrefix(s: string, t: string)
    requires s <= t
    ensures CString(s) <= CString(t)
    ensures '\0' !in s ==> CString(s) == s
  {
    if s != "" && s[0] != '\0' {
      CStringPrefix(s[1..], t[1..]);
      assert s == [s[0]] + s[1..];
      assert t[0] == s[0];
      assert CString(t) == [t[0]] + CString(t[1..]);
    }
  }

  /** It stops at the first NUL, or at the end. */
  lemma {:induction false} CStringStops(s: string)
    ensures '\0' !in CString(s) && (|CString(s)| == |s| || s[|CString(s)|] == '\0')
  {
    if s != "" && s[0] != '\0' {
      CStringStops(s[1..]);
    }
  }

  ghost predicate OccursAt(s: string, pat: string, i: nat) {
    i <= |s| && pat <= s[i..]
  }

  /** strstr: the first occurrence of `pat`. */
  function IndexOf(s: string, pat: string): (r: Option<nat>)
    ensures r.Some? ==> OccursAt(s, pat, r.value) && forall j :: 0 <= j < r.value ==> !OccursAt(s, pat, j)
    ensures r.None? ==> forall j: nat :: !OccursAt(s, pat, j)
  {
    if |s| < |pat| then None
    else if pat <= s then Some(0)
    else
      var rest := IndexOf(s[1..], pat);
      OccursInTail(s, pat);
      if rest.Some? then Some(rest.value + 1) else None
  }

  lemma OccursInTail(s: string, pat: string)
    requires |s| > 0
    ensures OccursAt(s, pat, 0) <==> pat <= s
    ensures forall j {:trigger OccursAt(s, pat, j)} :: 0 < j ==> (OccursAt(s, pat, j) <==> OccursAt(s[1..], pat, j - 1))
    ensures forall j {:trigger OccursAt(s[1..], pat, j)} :: 0 <= j ==>
      (OccursAt(s, pat, j + 1) <==> OccursAt(s[1..], pat, j))
  {
    forall j | 0 < j
      ensures OccursAt(s, pat, j) <==> OccursAt(s[1..], pat, j - 1)
    {
      if j <= |s| {
        assert s[1..][j - 1..] == s[j..];
      }
    }
  }

  lemma IndexOfIs(s: string, pat: string, i: nat)
    requires OccursAt(s, pat, i) && forall j :: 0 <= j < i ==> !OccursAt(s, pat, j)
    ensures IndexOf(s, pat) == Some(i)
  {
  }

  lemma OccursInPrefix(s: string, t: string, pat: string, i: nat)
    requires s <= t
    ensures OccursAt(s, pat, i) ==> OccursAt(t, pat, i)
    ensures OccursAt(t, pat, i) && i + |pat| <= |s| ==> OccursAt(s, pat, i)
  {
  }
}
