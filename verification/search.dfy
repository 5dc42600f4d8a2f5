/** The search page: a case-insensitive substring filter over the saved
    papers. Case mapping covers the ASCII letters only. */
module Search {
  import opened Seqs
  import opened Types

  /** The characters JavaScript's `trim` removes: the white-space and line
      terminator code points of section 12.2 and 12.3 of ECMA-262. */
  predicate IsTrimmable(c: char) {
    c == '\t' || c == '\n' || c == '\U{000B}' || c == '\U{000C}' || c == '\r' || c == ' ' ||
    c == '\U{00A0}' || c == '\U{1680}' || ('\U{2000}' <= c <= '\U{200A}') ||
    c == '\U{2028}' || c == '\U{2029}' || c == '\U{202F}' || c == '\U{205F}' ||
    c == '\U{3000}' || c == '\U{FEFF}'
  }

  function TrimStart(s: string): (r: string)
    ensures r == [] || !IsTrimmable(r[0])
    ensures |r| <= |s| && r == s[|s| - |r|..]
  {
    if s != [] && IsTrimmable(s[0]) then TrimStart(s[1..]) else s
  }

  function TrimEnd(s: string): (r: string)
    ensures r == [] || !IsTrimmable(r[|r| - 1])
    ensures |r| <= |s| && r == s[..|r|]
  {
    if s != [] && IsTrimmable(s[|s| - 1]) then TrimEnd(s[..|s| - 1]) else s
  }

  /** JavaScript `s.trim()`. */
  function Trim(s: string): string {
    TrimEnd(TrimStart(s))
  }

  predicate AllTrimmable(s: string) {
    forall i :: 0 <= i < |s| ==> IsTrimmable(s[i])
  }

  /** A term trims to nothing exactly when each of its characters is trimmable. */
  lemma {:induction false} TrimEmptyIff(s: string)
    ensures Trim(s) == [] <==> AllTrimmable(s)
  {
    var t := TrimStart(s);
    TrimStartEmptyIff(s);
    if t != [] {
      assert !IsTrimmable(t[0]);
      TrimEndKeepsNonTrimmableHead(t);
    }
  }

  lemma {:induction false} TrimStartEmptyIff(s: string)
    ensures TrimStart(s) == [] <==> AllTrimmable(s)
    decreases |s|
  {
    if s != [] && IsTrimmable(s[0]) {
      assert TrimStart(s) == TrimStart(s[1..]);
      TrimStartEmptyIff(s[1..]);
      AllTrimmableCons(s);
    }
  }

  lemma AllTrimmableCons(s: string)
    requires s != []
    ensures AllTrimmable(s) <==> IsTrimmable(s[0]) && AllTrimmable(s[1..])
  {
    if AllTrimmable(s) {
      forall i | 0 <= i < |s[1..]| ensures IsTrimmable(s[1..][i]) {
        assert s[1..][i] == s[i + 1];
      }
    }
    if IsTrimmable(s[0]) && AllTrimmable(s[1..]) {
      forall i | 0 <= i < |s| ensures IsTrimmable(s[i]) {
        if i > 0 { assert s[i] == s[1..][i - 1]; }
      }
    }
  }

  lemma {:induction false} TrimEndKeepsNonTrimmableHead(s: string)
    requires s != [] && !IsTrimmable(s[0])
    ensures TrimEnd(s) != []
    decreases |s|
  {
    if IsTrimmable(s[|s| - 1]) {
      assert |s| > 1;
      TrimEndKeepsNonTrimmableHead(s[..|s| - 1]);
    }
  }

  /** JavaScript `toLowerCase` on one character, restricted to ASCII letters. */
  function LowerChar(c: char): (d: char)
    ensures 'A' <= c <= 'Z' ==> 'a' <= d <= 'z'
    ensures !('A' <= c <= 'Z') ==> d == c
  {
    if 'A' <= c <= 'Z' then (c as int + 32) as char else c
  }

  function Lower(s: string): (r: string)
    ensures |r| == |s|
    ensures forall i :: 0 <= i < |s| ==> r[i] == LowerChar(s[i])
  {
    if s == [] then [] else [LowerChar(s[0])] + Lower(s[1..])
  }

  /** `needle` occurs in `hay` at some position (JavaScript `hay.includes(needle)`). */
  predicate Contains(hay: string, needle: string)
    decreases |hay|
  {
    needle <= hay || (hay != [] && Contains(hay[1..], needle))
  }

  /** `needle` starts at position `i` of `hay`. */
  predicate OccursAt(hay: string, needle: string, i: int) {
    0 <= i && i + |needle| <= |hay| && hay[i..i + |needle|] == needle
  }

  /** The recursive search agrees with "there is a position where the needle starts". */
  lemma {:induction false} ContainsIff(hay: string, needle: string)
    ensures Contains(hay, needle) <==> exists i :: OccursAt(hay, needle, i)
    decreases |hay|
  {
    if needle <= hay {
      assert OccursAt(hay, needle, 0);
    } else if hay != [] {
      ContainsIff(hay[1..], needle);
      if exists i :: OccursAt(hay, needle, i) {
        var i :| OccursAt(hay, needle, i);
        assert i != 0;
        assert hay[1..][i - 1..i - 1 + |needle|] == hay[i..i + |needle|];
        assert OccursAt(hay[1..], needle, i - 1);
      }
      if Contains(hay[1..], needle) {
        var i :| OccursAt(hay[1..], needle, i);
        assert hay[1..][i..i + |needle|] == hay[i + 1..i + 1 + |needle|];
        assert OccursAt(hay, needle, i + 1);
      }
    }
  }

  /** The match rule: the lowered term occurs in the lowered title, summary
      or principal investigator. */
  predicate Matches(p: Paper, loweredTerm: string) {
    Contains(Lower(p.title), loweredTerm) ||
    Contains(Lower(p.summary), loweredTerm) ||
    Contains(Lower(p.principalInvestigator), loweredTerm)
  }

  function FilterMatches(papers: seq<Paper>, loweredTerm: string): (r: seq<Paper>)
    ensures IsSubseq(r, papers)
    ensures forall i :: 0 <= i < |r| ==> Matches(r[i], loweredTerm)
    ensures forall i :: 0 <= i < |papers| && Matches(papers[i], loweredTerm) ==>
              papers[i] in r && Count(r, papers[i]) == Count(papers, papers[i])
  {
    if papers == [] then []
    else
      var rest := FilterMatches(papers[1..], loweredTerm);
      assert forall i :: 0 < i < |papers| ==> papers[i] == papers[1..][i - 1];
      if Matches(papers[0], loweredTerm) then
        var r := [papers[0]] + rest;
        assert r[1..] == rest;
        assert Count(rest, papers[0]) == Count(papers[1..], papers[0]) by {
          if papers[0] !in papers[1..] {
            SubseqMembers(rest, papers[1..]);
          }
        }
        r
      else
        assert IsSubseq(rest, papers) by {
          if rest != [] {
            assert papers != [];
          }
        }
        rest
  }

  /** The page state after typing: the raw term as typed and the results. */
  datatype SearchState = SearchState(searchTerm: string, filteredPapers: seq<Paper>)

  /** The search handler over the saved papers. */
  function HandleSearch(savedPapers: seq<Paper>, term: string): (r: SearchState)
    ensures r.searchTerm == term
    ensures AllTrimmable(term) ==> r.filteredPapers == []
    ensures IsSubseq(r.filteredPapers, savedPapers)
    ensures !AllTrimmable(term) ==>
              forall i :: 0 <= i < |savedPapers| ==>
                (savedPapers[i] in r.filteredPapers <==> Matches(savedPapers[i], Lower(term)))
    ensures !AllTrimmable(term) ==>
              forall i :: 0 <= i < |savedPapers| && Matches(savedPapers[i], Lower(term)) ==>
                Count(r.filteredPapers, savedPapers[i]) == Count(savedPapers, savedPapers[i])
  {
    TrimEmptyIff(term);
    if Trim(term) == [] then
      assert IsSubseq([], savedPapers);
      SearchState(term, [])
    else
      var results := FilterMatches(savedPapers, Lower(term));
      SubseqMembers(results, savedPapers);
      SearchState(term, results)
  }

  lemma LowerKeepsTrimmable(s: string)
    ensures AllTrimmable(Lower(s)) <==> AllTrimmable(s)
  {
  }

  /** Terms that differ only in the case of ASCII letters give the same results. */
  lemma CaseInsensitive(savedPapers: seq<Paper>, term1: string, term2: string)
    requires Lower(term1) == Lower(term2)
    ensures HandleSearch(savedPapers, term1).filteredPapers == HandleSearch(savedPapers, term2).filteredPapers
  {
    LowerKeepsTrimmable(term1);
    LowerKeepsTrimmable(term2);
    TrimEmptyIff(term1);
    TrimEmptyIff(term2);
  }
}
