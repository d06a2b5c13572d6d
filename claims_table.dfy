/**
 * The claims table of the dashboard: the search and the two drop-down
 * filters that decide which claims are listed, the Clear Filters button,
 * the status badge and the colour of the amount column.
 */
module ClaimsTable {
  import opened Wrappers
  import opened Text

  /**
   * One row of the table. The status is kept as the text it is at run
   * time, so that a status outside the four expected ones can be shown.
   */
  datatype Claim = Claim(
    id: string,
    patientName: string,
    hospital: string,
    amount: string,
    date: string,
    fraudStatus: string,
    fraudReason: Option<string>,
    location: string,
    claimType: string)

  /** The search box and the status and location drop-downs. */
  datatype Criteria = Criteria(searchTerm: string, statusFilter: string, locationFilter: string)

  /** The value of either drop-down that lets every claim through. */
  const Everything := "all"

  /** The search term occurs, ignoring case, in the patient's name, the hospital or the claim id. */
  predicate MatchesSearch(claim: Claim, term: string)
  {
    var t := Lower(term);
    Contains(Lower(claim.patientName), t) || Contains(Lower(claim.hospital), t) || Contains(Lower(claim.id), t)
  }

  predicate MatchesStatus(claim: Claim, filter: string)
  {
    filter == Everything || claim.fraudStatus == filter
  }

  predicate MatchesLocation(claim: Claim, filter: string)
  {
    filter == Everything || claim.location == filter
  }

  /** A claim is listed when it passes the search and both drop-downs. */
  predicate Keep(claim: Claim, criteria: Criteria)
  {
    && MatchesSearch(claim, criteria.searchTerm)
    && MatchesStatus(claim, criteria.statusFilter)
    && MatchesLocation(claim, criteria.locationFilter)
  }

  /** The claims listed: those kept, in the order of the full list. */
  function Filtered(claims: seq<Claim>, criteria: Criteria): (r: seq<Claim>)
    ensures |r| <= |claims|
    ensures forall c :: c in r <==> c in claims && Keep(c, criteria)
  {
    if claims == [] then []
    else
      var rest := Filtered(claims[1..], criteria);
      if Keep(claims[0], criteria) then [claims[0]] + rest else rest
  }

  /** `sub` is `s` with some entries removed and the others in their order. */
  predicate IsSubsequence(sub: seq<Claim>, s: seq<Claim>)
    decreases |s|
  {
    if sub == [] then true
    else if s == [] then false
    else if sub[0] == s[0] then IsSubsequence(sub[1..], s[1..])
    else IsSubsequence(sub, s[1..])
  }

  /** The listed claims keep the order of the full list. */
  lemma {:induction false} FilteredIsSubsequence(claims: seq<Claim>, criteria: Criteria)
    ensures IsSubsequence(Filtered(claims, criteria), claims)
  {
    if claims != [] {
      FilteredIsSubsequence(claims[1..], criteria);
      var rest := Filtered(claims[1..], criteria);
      if Keep(claims[0], criteria) {
        assert ([claims[0]] + rest)[1..] == rest;
      } else {
        Prepend(claims[0], rest, claims[1..]);
        assert claims == [claims[0]] + claims[1..];
      }
    }
  }

  /** Putting an entry in front keeps a subsequence one. */
  lemma {:induction false} Prepend(x: Claim, sub: seq<Claim>, s: seq<Claim>)
    requires IsSubsequence(sub, s)
    ensures IsSubsequence(sub, [x] + s)
    decreases |s|, 1
  {
    assert ([x] + s)[1..] == s;
    if sub != [] && sub[0] == x {
      DropFirst(sub, s);
    }
  }

  lemma {:induction false} DropFirst(sub: seq<Claim>, s: seq<Claim>)
    requires sub != [] && IsSubsequence(sub, s)
    ensures IsSubsequence(sub[1..], s)
    decreases |s|, 0
  {
    assert s == [s[0]] + s[1..];
    if sub[0] != s[0] {
      DropFirst(sub, s[1..]);
    }
    Prepend(s[0], sub[1..], s[1..]);
  }

  /**
   * Nothing is lost or duplicated: a kept claim appears as often as in the
   * full list and a dropped one not at all.
   */
  lemma {:induction false} FilteredCounts(claims: seq<Claim>, criteria: Criteria, c: Claim)
    ensures multiset(Filtered(claims, criteria))[c] == if Keep(c, criteria) then multiset(claims)[c] else 0
  {
    if claims != [] {
      FilteredCounts(claims[1..], criteria, c);
      assert claims == [claims[0]] + claims[1..];
    }
  }

  /** When every claim passes, the whole list is shown as it is. */
  lemma {:induction false} FilteredAllKept(claims: seq<Claim>, criteria: Criteria)
    requires forall c :: c in claims ==> Keep(c, criteria)
    ensures Filtered(claims, criteria) == claims
  {
    if claims != [] {
      assert forall c :: c in claims[1..] ==> c in claims;
      FilteredAllKept(claims[1..], criteria);
    }
  }

  /** Filtering the listed claims again with the same criteria changes nothing. */
  lemma FilteredIdempotent(claims: seq<Claim>, criteria: Criteria)
    ensures Filtered(Filtered(claims, criteria), criteria) == Filtered(claims, criteria)
  {
    FilteredAllKept(Filtered(claims, criteria), criteria);
  }

  /** The criteria the Clear Filters button sets: an empty search and both drop-downs on "all". */
  function ClearFilters(): (r: Criteria)
    ensures forall c :: Keep(c, r)
  {
    var r := Criteria("", Everything, Everything);
    forall c: Claim ensures Keep(c, r) {
      EmptySearchMatches(c);
    }
    r
  }

  /** An empty search term matches every claim. */
  lemma EmptySearchMatches(claim: Claim)
    ensures MatchesSearch(claim, "")
  {
    assert Lower("") == "";
    ContainsEmpty(Lower(claim.patientName));
  }

  /** After Clear Filters the table lists every claim, in order. */
  lemma ClearedShowsAll(claims: seq<Claim>)
    ensures Filtered(claims, ClearFilters()) == claims
  {
    FilteredAllKept(claims, ClearFilters());
  }

  /** The search ignores the case of the term. */
  lemma SearchIgnoresCase(claims: seq<Claim>, criteria: Criteria)
    ensures Filtered(claims, criteria) == Filtered(claims, criteria.(searchTerm := Lower(criteria.searchTerm)))
  {
    LowerIdempotent(criteria.searchTerm);
    SameKeepSameFiltered(claims, criteria, criteria.(searchTerm := Lower(criteria.searchTerm)));
  }

  lemma {:induction false} SameKeepSameFiltered(claims: seq<Claim>, a: Criteria, b: Criteria)
    requires forall c :: Keep(c, a) == Keep(c, b)
    ensures Filtered(claims, a) == Filtered(claims, b)
  {
    if claims != [] {
      SameKeepSameFiltered(claims[1..], a, b);
    }
  }

  /**
   * A drop-down other than "all" lets through exactly the claims with that
   * status (or location) that pass the other tests.
   */
  lemma StatusFilterIsExact(claims: seq<Claim>, criteria: Criteria, c: Claim)
    requires criteria.statusFilter != Everything
    ensures c in Filtered(claims, criteria) <==>
      c in claims && c.fraudStatus == criteria.statusFilter
      && MatchesSearch(c, criteria.searchTerm) && MatchesLocation(c, criteria.locationFilter)
  {
  }

  lemma LocationFilterIsExact(claims: seq<Claim>, criteria: Criteria, c: Claim)
    requires criteria.locationFilter != Everything
    ensures c in Filtered(claims, criteria) <==>
      c in claims && c.location == criteria.locationFilter
      && MatchesSearch(c, criteria.searchTerm) && MatchesStatus(c, criteria.statusFilter)
  {
  }

  /** Choosing a status only narrows the list shown for "all". */
  lemma {:induction false} StatusNarrows(claims: seq<Claim>, criteria: Criteria)
    ensures IsSubsequence(Filtered(claims, criteria), Filtered(claims, criteria.(statusFilter := Everything)))
  {
    var wide := criteria.(statusFilter := Everything);
    if claims != [] {
      StatusNarrows(claims[1..], criteria);
      var rest := Filtered(claims[1..], criteria);
      var wideRest := Filtered(claims[1..], wide);
      if Keep(claims[0], criteria) {
        assert Filtered(claims, wide) == [claims[0]] + wideRest;
        assert ([claims[0]] + rest)[1..] == rest;
        assert ([claims[0]] + wideRest)[1..] == wideRest;
      } else if Keep(claims[0], wide) && rest != [] {
        assert Filtered(claims, wide) == [claims[0]] + wideRest;
        assert ([claims[0]] + wideRest)[1..] == wideRest;
        Prepend(claims[0], rest, wideRest);
      }
    }
  }

  datatype Variant = Default | Secondary
  datatype Glyph = CheckCircle | AlertTriangle | Clock

  /** A badge: its variant, its classes, its leading icon if any and its text. */
  datatype Badge = Badge(variant: Variant, className: string, icon: Option<Glyph>, text: string)

  /** The badge of the status column. A status outside the four known ones is shown as it is. */
  function StatusBadge(status: string): (r: Badge)
    ensures r.icon.None? <==> status !in {"clean", "suspicious", "fraudulent", "pending"}
    ensures r.icon.None? ==> r.variant == Secondary && r.text == status
  {
    match status
    case "clean" => Badge(Default, "bg-success text-success-foreground", Some(CheckCircle), "Clean")
    case "suspicious" => Badge(Default, "bg-warning text-warning-foreground", Some(AlertTriangle), "Suspicious")
    case "fraudulent" => Badge(Default, "bg-danger text-danger-foreground", Some(AlertTriangle), "Fraudulent")
    case "pending" => Badge(Secondary, "", Some(Clock), "Pending")
    case _ => Badge(Secondary, "", None, status)
  }

  /** Different statuses never share a badge, so the badge tells the status back. */
  lemma StatusBadgeInjective(a: string, b: string)
    requires StatusBadge(a) == StatusBadge(b)
    ensures a == b
  {
    var known := {"clean", "suspicious", "fraudulent", "pending"};
    if a in known && b in known {
      assert "clean"[0] != "suspicious"[0] && "clean"[0] != "fraudulent"[0] && "clean"[0] != "pending"[0];
      assert "suspicious"[0] != "fraudulent"[0] && "suspicious"[0] != "pending"[0];
      assert "fraudulent"[0] != "pending"[0];
      assert "Suspicious"[0] != "Fraudulent"[0];
    }
  }

  /** The class of the amount cell. */
  function AmountColor(status: string): (r: string)
    ensures r != "text-foreground" <==> status == "fraudulent" || status == "suspicious"
  {
    match status
    case "fraudulent" => "text-danger font-bold"
    case "suspicious" => "text-warning font-semibold"
    case _ => "text-foreground"
  }

  /** The amount is highlighted exactly for the statuses whose badge carries a warning triangle. */
  lemma HighlightedIffWarningBadge(status: string)
    ensures AmountColor(status) != "text-foreground" <==> StatusBadge(status).icon == Some(AlertTriangle)
  {
  }

  /**
   * The amount takes the tone of the status badge: danger exactly when the
   * badge is danger (fraudulent), warning exactly when it is warning
   * (suspicious).
   */
  lemma AmountToneMatchesBadge(status: string)
    ensures IsPrefix("text-danger", AmountColor(status)) <==> IsPrefix("bg-danger", StatusBadge(status).className)
    ensures IsPrefix("text-warning", AmountColor(status)) <==> IsPrefix("bg-warning", StatusBadge(status).className)
  {
    if status == "fraudulent" {
      DangerTone();
    } else if status == "suspicious" {
      WarningTone();
    } else {
      assert AmountColor(status) == "text-foreground";
      assert StatusBadge(status).className in {"bg-success text-success-foreground", ""};
      NeutralTone();
    }
  }

  lemma DangerTone()
    ensures IsPrefix("text-danger", "text-danger font-bold") && !IsPrefix("text-warning", "text-danger font-bold")
    ensures IsPrefix("bg-danger", "bg-danger text-danger-foreground") && !IsPrefix("bg-warning", "bg-danger text-danger-foreground")
  {
    assert "text-danger font-bold"[..11] == "text-danger";
    assert "text-danger font-bold"[5] != "text-warning"[5];
    assert "bg-danger text-danger-foreground"[..9] == "bg-danger";
    assert "bg-danger text-danger-foreground"[3] != "bg-warning"[3];
  }

  lemma WarningTone()
    ensures IsPrefix("text-warning", "text-warning font-semibold") && !IsPrefix("text-danger", "text-warning font-semibold")
    ensures IsPrefix("bg-warning", "bg-warning text-warning-foreground") && !IsPrefix("bg-danger", "bg-warning text-warning-foreground")
  {
    assert "text-warning font-semibold"[..12] == "text-warning";
    assert "text-warning font-semibold"[5] != "text-danger"[5];
    assert "bg-warning text-warning-foreground"[..10] == "bg-warning";
    assert "bg-warning text-warning-foreground"[3] != "bg-danger"[3];
  }

  lemma NeutralTone()
    ensures !IsPrefix("text-danger", "text-foreground") && !IsPrefix("text-warning", "text-foreground")
    ensures !IsPrefix("bg-danger", "bg-success text-success-foreground") && !IsPrefix("bg-warning", "bg-success text-success-foreground")
    ensures !IsPrefix("bg-danger", "") && !IsPrefix("bg-warning", "")
  {
    assert "text-foreground"[5] != "text-danger"[5] && "text-foreground"[5] != "text-warning"[5];
    assert "bg-success text-success-foreground"[3] != "bg-danger"[3];
    assert "bg-success text-success-foreground"[3] != "bg-warning"[3];
  }
}
