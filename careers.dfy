/** The careers page: the list of open positions, grouped by department in the
    order departments first appear; the one position whose details are
    expanded; and, for each position, the detail page "View Full Details"
    navigates to and the application e-mail "Apply Now" opens. */
module Careers {
  import opened Wrappers
  import opened Seqs
  import opened Decimal

  /** A position, with the fields the page's logic reads. */
  datatype JobPosition = JobPosition(
    title: string, location: string, package: string, department: string, kind: string,
    isNew: bool, isUrgent: bool, howToApply: string)

  // ---------------------------------------------------------------------------
  // The positions listed
  // ---------------------------------------------------------------------------

  const INSTRUCTIONS_HEAD: string := "Send your resume to careers@bluebuckresearch.com with the unique string "

  /** The quoted unique string the instructions ask applicants to include. */
  function Quoted(code: string): string {
    "\"" + code + "\""
  }

  /** Every position's application instructions: the same sentence around its
      own unique string, sometimes followed by a further request. */
  function HowToApply(code: string, extra: string): (r: string)
    ensures OccursAt(r, Quoted(code), |INSTRUCTIONS_HEAD|)
  {
    var r := INSTRUCTIONS_HEAD + Quoted(code) + " included in the body of the email." + extra;
    assert r[|INSTRUCTIONS_HEAD|..|INSTRUCTIONS_HEAD| + |Quoted(code)|] == Quoted(code);
    r
  }

  const SOCIAL_MEDIA_MANAGER: JobPosition := JobPosition(
    "Social Media Manager", "Kolkata", "4-12 LPA", "Marketing", "Full Time",
    false, true,
    HowToApply("SMM2024", " Please include links to social media accounts you've managed."))

  const FULL_STACK_WEB_DEVELOPER: JobPosition := JobPosition(
    "Full Stack Web Developer", "Kolkata", "6-24 LPA", "Technology", "Full Time",
    false, true,
    HowToApply("FSWD2024", " Please include links to your GitHub projects or portfolio."))

  const SOFTWARE_ENGINEER: JobPosition := JobPosition(
    "Software Engineer", "Kolkata", "6-24 LPA", "Technology", "Full Time",
    false, true,
    HowToApply("SE2024", ""))

  const DATA_ENGINEER: JobPosition := JobPosition(
    "Data Engineer", "Kolkata", "8-24 LPA", "Technology", "Full Time",
    false, false,
    HowToApply("DE2024", ""))

  const QUANTITATIVE_RESEARCHER: JobPosition := JobPosition(
    "Quantitative Researcher", "Kolkata", "36-60 LPA", "Research", "Full Time",
    false, false,
    HowToApply("X4413", ""))

  const CONTENT_CREATOR: JobPosition := JobPosition(
    "Content Creator", "Kolkata / Remote", "3-12 LPA", "Content", "Full Time / Part Time",
    false, false,
    HowToApply("CC2024", ""))

  const QUANT_DEVELOPER: JobPosition := JobPosition(
    "Quant Developer (C++/Python)", "Kolkata", "8-24 LPA", "Development", "Full Time",
    false, false,
    HowToApply("QD2024", ""))

  const VIDEO_EDITOR: JobPosition := JobPosition(
    "Video Editor", "Kolkata / Remote", "Based on experience", "Content", "Full Time / Part Time",
    true, false,
    HowToApply("VE2024", ""))

  const POSITIONS: seq<JobPosition> := [
    SOCIAL_MEDIA_MANAGER, FULL_STACK_WEB_DEVELOPER, SOFTWARE_ENGINEER, DATA_ENGINEER,
    QUANTITATIVE_RESEARCHER, CONTENT_CREATOR, QUANT_DEVELOPER, VIDEO_EDITOR
  ]

  /** No two positions share a title. */
  lemma TitlesDistinct()
    ensures forall i, j :: 0 <= i < j < |POSITIONS| ==> POSITIONS[i].title != POSITIONS[j].title
  {
  }

  // ---------------------------------------------------------------------------
  // Grouping by department
  // ---------------------------------------------------------------------------

  /** A `Record<string, JobPosition[]>` as its entries, in the order
      `Object.entries` lists them: keys that are not array indices come in
      insertion order. The model holds for departments that are ordinary keys. */
  type Groups = seq<(string, seq<JobPosition>)>

  /** The names a `{}` literal inherits from `Object.prototype`: under such a
      department `acc[department]` is already set, and `push` on it throws. */
  const PROTOTYPE_NAMES: set<string> := {
    "constructor", "__proto__", "toString", "toLocaleString", "valueOf",
    "hasOwnProperty", "isPrototypeOf", "propertyIsEnumerable",
    "__defineGetter__", "__defineSetter__", "__lookupGetter__", "__lookupSetter__"
  }

  /** A key `Object.entries` lists before all others, in numeric order. */
  predicate IsArrayIndex(d: string) {
    Canonical(d) && Value(d) < 0xFFFF_FFFF
  }

  /** A department the grouping handles as a plain key in insertion order. */
  predicate OrdinaryKey(d: string) {
    d !in PROTOTYPE_NAMES && !IsArrayIndex(d)
  }

  /** Every department on the page is an ordinary key. */
  lemma PositionsOrdinaryKeys()
    ensures forall i :: 0 <= i < |POSITIONS| ==> OrdinaryKey(POSITIONS[i].department)
  {
    forall i | 0 <= i < |POSITIONS|
      ensures OrdinaryKey(POSITIONS[i].department)
    {
      var d := POSITIONS[i].department;
      assert !IsDigit(d[0]);
    }
  }

  /** Where key `d` sits among the entries, or -1 when it is absent. */
  function KeyIndex(g: Groups, d: string): (r: int)
    ensures -1 <= r < |g|
    ensures r >= 0 ==> g[r].0 == d && forall k :: 0 <= k < r ==> g[k].0 != d
    ensures r < 0 <==> forall k :: 0 <= k < |g| ==> g[k].0 != d
  {
    if g == [] then -1
    else if g[0].0 == d then 0
    else var r := KeyIndex(g[1..], d); if r < 0 then -1 else r + 1
  }

  /** `acc[d]`, with a missing key read as no positions. */
  function Lookup(g: Groups, d: string): seq<JobPosition> {
    var k := KeyIndex(g, d);
    if k < 0 then [] else g[k].1
  }

  /** One call of the reducer: create the department's list if it is missing,
      then push the position onto it. */
  function AddPosition(g: Groups, p: JobPosition): Groups {
    var k := KeyIndex(g, p.department);
    if k < 0 then g + [(p.department, [p])] else g[k := (p.department, g[k].1 + [p])]
  }

  /** `positions.reduce(reducer, {})`. */
  function Grouped(ps: seq<JobPosition>): Groups {
    if ps == [] then [] else AddPosition(Grouped(ps[..|ps| - 1]), ps[|ps| - 1])
  }

  /** The grouping as the page computes it: one accumulator, updated in place
      for each position in turn. */
  method GroupPositions(ps: seq<JobPosition>) returns (acc: Groups)
    ensures acc == Grouped(ps)
  {
    acc := [];
    for i := 0 to |ps|
      invariant acc == Grouped(ps[..i])
    {
      ghost var before := acc;
      var position := ps[i];
      var k := KeyIndex(acc, position.department);
      if k < 0 {
        acc := acc + [(position.department, [])];
        k := |acc| - 1;
      }
      acc := acc[k := (acc[k].0, acc[k].1 + [position])];
      if KeyIndex(before, position.department) < 0 {
        assert [] + [position] == [position];
        assert acc == before + [(position.department, [position])];
      }
      assert acc == AddPosition(before, position);
      assert ps[..i + 1][..i] == ps[..i];
    }
    assert ps[..|ps|] == ps;
  }

  predicate DistinctKeys(g: Groups) {
    forall i, j :: 0 <= i < j < |g| ==> g[i].0 != g[j].0
  }

  /** The positions of department `d`, in list order. */
  function OfDepartment(ps: seq<JobPosition>, d: string): seq<JobPosition> {
    Filter(ps, (p: JobPosition) => p.department == d)
  }

  /** The index of the first position of department `d`, or `|ps|`. */
  function FirstIndex(ps: seq<JobPosition>, d: string): (i: nat)
    ensures i <= |ps|
    ensures forall k :: 0 <= k < i ==> ps[k].department != d
    ensures i < |ps| ==> ps[i].department == d
  {
    if ps == [] then 0 else if ps[0].department == d then 0 else 1 + FirstIndex(ps[1..], d)
  }

  /** The number of positions over all groups. */
  function TotalSize(g: Groups): nat {
    if g == [] then 0 else |g[0].1| + TotalSize(g[1..])
  }

  /** Adding a position changes no existing key and adds its department at
      the end when it was missing. */
  lemma AddPositionKeys(g: Groups, p: JobPosition, d: string)
    ensures KeyIndex(AddPosition(g, p), d) ==
            if KeyIndex(g, d) >= 0 then KeyIndex(g, d)
            else if d == p.department then |g| else -1
    ensures |AddPosition(g, p)| == if KeyIndex(g, p.department) < 0 then |g| + 1 else |g|
    ensures forall k :: 0 <= k < |g| ==> AddPosition(g, p)[k].0 == g[k].0
  {
    var g' := AddPosition(g, p);
    assert forall k :: 0 <= k < |g| ==> g'[k].0 == g[k].0;
    var r := KeyIndex(g', d);
    if KeyIndex(g, d) >= 0 {
      assert g'[KeyIndex(g, d)].0 == d;
    } else if d == p.department {
      assert g'[|g|].0 == d;
    }
  }

  /** Department names are never repeated among the entries. */
  lemma {:induction false} GroupedDistinct(ps: seq<JobPosition>)
    ensures DistinctKeys(Grouped(ps))
  {
    if ps != [] {
      var g := Grouped(ps[..|ps| - 1]);
      var p := ps[|ps| - 1];
      GroupedDistinct(ps[..|ps| - 1]);
      AddPositionKeys(g, p, p.department);
    }
  }

  /** A department has an entry exactly when some position belongs to it. */
  lemma {:induction false} GroupedKeys(ps: seq<JobPosition>, d: string)
    ensures KeyIndex(Grouped(ps), d) >= 0 <==> FirstIndex(ps, d) < |ps|
  {
    if ps != [] {
      var init := ps[..|ps| - 1];
      GroupedKeys(init, d);
      AddPositionKeys(Grouped(init), ps[|ps| - 1], d);
      FirstIndexSnoc(init, ps[|ps| - 1], d);
    }
  }

  lemma {:induction false} FirstIndexSnoc(ps: seq<JobPosition>, p: JobPosition, d: string)
    ensures FirstIndex(ps + [p], d) ==
            if FirstIndex(ps, d) < |ps| then FirstIndex(ps, d)
            else if p.department == d then |ps| else |ps| + 1
  {
    if ps == [] {
      assert [] + [p] == [p];
    } else {
      assert (ps + [p])[1..] == ps[1..] + [p];
      FirstIndexSnoc(ps[1..], p, d);
    }
  }

  /** Each department's group holds exactly that department's positions, in
      the order they are listed. */
  lemma {:induction false} GroupedLookup(ps: seq<JobPosition>, d: string)
    ensures Lookup(Grouped(ps), d) == OfDepartment(ps, d)
  {
    if ps != [] {
      var init := ps[..|ps| - 1];
      var p := ps[|ps| - 1];
      GroupedLookup(init, d);
      AddPositionKeys(Grouped(init), p, d);
      FilterConcat(init, [p], (q: JobPosition) => q.department == d);
      assert init + [p] == ps;
    }
  }

  lemma {:induction false} TotalSizeAppend(g: Groups, e: (string, seq<JobPosition>))
    ensures TotalSize(g + [e]) == TotalSize(g) + |e.1|
  {
    if g != [] {
      assert (g + [e])[1..] == g[1..] + [e];
      TotalSizeAppend(g[1..], e);
    }
  }

  lemma {:induction false} TotalSizePush(g: Groups, k: nat, p: JobPosition)
    requires k < |g|
    ensures TotalSize(g[k := (g[k].0, g[k].1 + [p])]) == TotalSize(g) + 1
  {
    if k > 0 {
      assert g[k := (g[k].0, g[k].1 + [p])][1..] == g[1..][k - 1 := (g[k].0, g[k].1 + [p])];
      TotalSizePush(g[1..], k - 1, p);
    }
  }

  /** Grouping loses and duplicates no position. */
  lemma {:induction false} GroupedCount(ps: seq<JobPosition>)
    ensures TotalSize(Grouped(ps)) == |ps|
  {
    if ps != [] {
      var g := Grouped(ps[..|ps| - 1]);
      var p := ps[|ps| - 1];
      GroupedCount(ps[..|ps| - 1]);
      var k := KeyIndex(g, p.department);
      if k < 0 {
        TotalSizeAppend(g, (p.department, [p]));
      } else {
        TotalSizePush(g, k, p);
      }
    }
  }

  /** Departments are listed in the order of their first position
      (the insertion order of section 10.1.11.1 of ECMA-262). */
  lemma {:induction false} GroupedKeyOrder(ps: seq<JobPosition>)
    ensures forall i, j :: 0 <= i < j < |Grouped(ps)| ==>
              FirstIndex(ps, Grouped(ps)[i].0) < FirstIndex(ps, Grouped(ps)[j].0)
  {
    if ps != [] {
      var init := ps[..|ps| - 1];
      var p := ps[|ps| - 1];
      var g := Grouped(init);
      var g' := Grouped(ps);
      assert init + [p] == ps;
      GroupedKeyOrder(init);
      AddPositionKeys(g, p, p.department);
      forall i | 0 <= i < |g|
        ensures FirstIndex(ps, g'[i].0) == FirstIndex(init, g[i].0) < |init|
      {
        GroupedKeys(init, g[i].0);
        FirstIndexSnoc(init, p, g[i].0);
      }
      if |g'| > |g| {
        FirstIndexSnoc(init, p, p.department);
        GroupedKeys(init, p.department);
      }
    }
  }

  /** The first four of such positions fill the Marketing and Technology groups. */
  lemma GroupedShapeFour(P: seq<JobPosition>)
    requires |P| >= 4
    requires P[0].department == "Marketing"
    requires P[1].department == "Technology" && P[2].department == "Technology" && P[3].department == "Technology"
    ensures Grouped(P[..4]) == [("Marketing", [P[0]]), ("Technology", [P[1], P[2], P[3]])]
  {
    var g1 := [("Marketing", [P[0]])];
    assert Grouped(P[..1]) == g1 by {
      GroupedSnoc(P, 1);
      assert P[..0] == [];
      AddNew([], P[0]);
    }
    var g2 := g1 + [("Technology", [P[1]])];
    assert Grouped(P[..2]) == g2 by {
      GroupedSnoc(P, 2);
      AddNew(g1, P[1]);
    }
    var g3 := g1 + [("Technology", [P[1], P[2]])];
    assert Grouped(P[..3]) == g3 by {
      GroupedSnoc(P, 3);
      AddToExisting(g2, P[2], 1);
      assert [P[1]] + [P[2]] == [P[1], P[2]];
    }
    assert Grouped(P[..4]) == g1 + [("Technology", [P[1], P[2], P[3]])] by {
      GroupedSnoc(P, 4);
      AddToExisting(g3, P[3], 1);
      assert [P[1], P[2]] + [P[3]] == [P[1], P[2], P[3]];
    }
  }

  /** The next two add the Research and Content groups. */
  lemma GroupedShapeSix(P: seq<JobPosition>)
    requires |P| >= 6
    requires P[0].department == "Marketing"
    requires P[1].department == "Technology" && P[2].department == "Technology" && P[3].department == "Technology"
    requires P[4].department == "Research" && P[5].department == "Content"
    ensures Grouped(P[..6]) == [("Marketing", [P[0]]), ("Technology", [P[1], P[2], P[3]]), ("Research", [P[4]]),
                                ("Content", [P[5]])]
  {
    var g4 := [("Marketing", [P[0]]), ("Technology", [P[1], P[2], P[3]])];
    GroupedShapeFour(P);
    var g5 := g4 + [("Research", [P[4]])];
    assert Grouped(P[..5]) == g5 by {
      GroupedSnoc(P, 5);
      AddNew(g4, P[4]);
    }
    assert Grouped(P[..6]) == g5 + [("Content", [P[5]])] by {
      GroupedSnoc(P, 6);
      AddNew(g5, P[5]);
    }
  }

  /** How eight positions with the listed positions' departments group. */
  lemma GroupedShape(P: seq<JobPosition>)
    requires |P| == 8
    requires P[0].department == "Marketing"
    requires P[1].department == "Technology" && P[2].department == "Technology" && P[3].department == "Technology"
    requires P[4].department == "Research" && P[5].department == "Content"
    requires P[6].department == "Development" && P[7].department == "Content"
    ensures Grouped(P) == [
      ("Marketing", [P[0]]), ("Technology", [P[1], P[2], P[3]]), ("Research", [P[4]]),
      ("Content", [P[5], P[7]]), ("Development", [P[6]])
    ]
  {
    var g6 := [("Marketing", [P[0]]), ("Technology", [P[1], P[2], P[3]]), ("Research", [P[4]]),
               ("Content", [P[5]])];
    GroupedShapeSix(P);
    var g5 := g6[..3];
    var g7 := g6 + [("Development", [P[6]])];
    assert Grouped(P[..7]) == g7 by {
      GroupedSnoc(P, 7);
      AddNew(g6, P[6]);
    }
    assert Grouped(P[..8]) == g5 + [("Content", [P[5], P[7]]), ("Development", [P[6]])] by {
      GroupedSnoc(P, 8);
      AddToExisting(g7, P[7], 3);
      assert [P[5]] + [P[7]] == [P[5], P[7]];
    }
    assert P[..8] == P;
  }

  /** The page lists Marketing, Technology, Research, Content and Development,
      in that order, each with its positions in list order. */
  lemma FixtureGroups()
    ensures Grouped(POSITIONS) == [
      ("Marketing", [SOCIAL_MEDIA_MANAGER]),
      ("Technology", [FULL_STACK_WEB_DEVELOPER, SOFTWARE_ENGINEER, DATA_ENGINEER]),
      ("Research", [QUANTITATIVE_RESEARCHER]),
      ("Content", [CONTENT_CREATOR, VIDEO_EDITOR]),
      ("Development", [QUANT_DEVELOPER])
    ]
  {
    GroupedShape(POSITIONS);
  }

  lemma AddNew(g: Groups, p: JobPosition)
    requires forall i :: 0 <= i < |g| ==> g[i].0 != p.department
    ensures AddPosition(g, p) == g + [(p.department, [p])]
  {
  }

  lemma GroupedSnoc(ps: seq<JobPosition>, k: nat)
    requires 0 < k <= |ps|
    ensures Grouped(ps[..k]) == AddPosition(Grouped(ps[..k - 1]), ps[k - 1])
  {
    assert ps[..k][..k - 1] == ps[..k - 1];
  }

  lemma AddToExisting(g: Groups, p: JobPosition, k: nat)
    requires k < |g| && g[k].0 == p.department
    requires forall i :: 0 <= i < k ==> g[i].0 != p.department
    ensures AddPosition(g, p) == g[k := (p.department, g[k].1 + [p])]
  {
  }

  // ---------------------------------------------------------------------------
  // The expanded position
  // ---------------------------------------------------------------------------

  /** `toggleJobDetails`: collapse the position if it is the expanded one,
      otherwise expand it (and so collapse any other). */
  function Toggled(expanded: Option<string>, title: string): (r: Option<string>)
    ensures r == None <==> expanded == Some(title)
    ensures r != None ==> r == Some(title)
  {
    if expanded == Some(title) then None else Some(title)
  }

  /** Toggling the same position twice restores the state exactly when that
      position or none was expanded before. */
  lemma ToggleTwice(expanded: Option<string>, title: string)
    ensures Toggled(Toggled(expanded, title), title) == expanded <==> expanded == None || expanded == Some(title)
  {
  }

  /** Only one card of the page is ever expanded, since titles are distinct. */
  lemma AtMostOneExpanded(expanded: Option<string>, i: nat, j: nat)
    requires i < |POSITIONS| && j < |POSITIONS|
    requires expanded == Some(POSITIONS[i].title) && expanded == Some(POSITIONS[j].title)
    ensures i == j
  {
    TitlesDistinct();
  }

  /** The page's `expandedJob` state. */
  class CareersPage {
    var expandedJob: Option<string>

    /** `useState<string | null>(null)`. */
    constructor()
      ensures expandedJob == None
      ensures forall p :: !IsExpanded(p)
    {
      expandedJob := None;
    }

    /** Whether a card shows its details and turns its chevron. */
    predicate IsExpanded(position: JobPosition)
      reads this
    {
      expandedJob == Some(position.title)
    }

    /** At most one card of the page shows its details. */
    lemma OneCardExpanded(i: nat, j: nat)
      requires i < |POSITIONS| && j < |POSITIONS|
      requires IsExpanded(POSITIONS[i]) && IsExpanded(POSITIONS[j])
      ensures i == j
    {
      AtMostOneExpanded(expandedJob, i, j);
    }

    /** After a toggle, a card is expanded exactly when it is the toggled one
        and that one was not expanded before. */
    method ToggleJobDetails(title: string)
      modifies this
      ensures expandedJob == Toggled(old(expandedJob), title)
      ensures forall p :: IsExpanded(p) <==> p.title == title && old(expandedJob) != Some(title)
    {
      expandedJob := if expandedJob == Some(title) then None else Some(title);
    }
  }

  // ---------------------------------------------------------------------------
  // Navigation and application
  // ---------------------------------------------------------------------------

  /** The detail pages that exist under `app/careers`. */
  const DETAIL_PAGES: set<string> := {
    "/careers/software-engineer", "/careers/full-stack-developer", "/careers/social-media-manager",
    "/careers/data-engineer", "/careers/content-creator", "/careers/video-editor"
  }

  /** "View Full Details": where the router is sent, if anywhere. */
  function RouteFor(title: string): Option<string> {
    if title == "Software Engineer" then Some("/careers/software-engineer")
    else if title == "Full Stack Web Developer" then Some("/careers/full-stack-developer")
    else if title == "Social Media Manager" then Some("/careers/social-media-manager")
    else if title == "Quantitative Researcher" then Some("/careers/quantitative-researcher")
    else if title == "Data Engineer" then Some("/careers/data-engineer")
    else if title == "Content Creator" then Some("/careers/content-creator")
    else if title == "Video Editor" then Some("/careers/video-editor")
    else None
  }

  /** Where each listed position's "View Full Details" goes. */
  lemma FixtureRoutes()
    ensures RouteFor(SOCIAL_MEDIA_MANAGER.title) == Some("/careers/social-media-manager")
    ensures RouteFor(FULL_STACK_WEB_DEVELOPER.title) == Some("/careers/full-stack-developer")
    ensures RouteFor(SOFTWARE_ENGINEER.title) == Some("/careers/software-engineer")
    ensures RouteFor(DATA_ENGINEER.title) == Some("/careers/data-engineer")
    ensures RouteFor(QUANTITATIVE_RESEARCHER.title) == Some("/careers/quantitative-researcher")
    ensures RouteFor(CONTENT_CREATOR.title) == Some("/careers/content-creator")
    ensures RouteFor(QUANT_DEVELOPER.title) == None
    ensures RouteFor(VIDEO_EDITOR.title) == Some("/careers/video-editor")
  {
  }

  /** Every listed position but Quant Developer navigates somewhere, and every
      target but the Quantitative Researcher's is an existing detail page. */
  lemma RoutesOfPositions()
    ensures forall p :: p in POSITIONS ==> (RouteFor(p.title).None? <==> p == QUANT_DEVELOPER)
    ensures forall p :: p in POSITIONS && RouteFor(p.title).Some? ==>
              (RouteFor(p.title).value in DETAIL_PAGES <==> p != QUANTITATIVE_RESEARCHER)
  {
    FixtureRoutes();
  }

  /** The `emailId` if-chain as written: titles it does not name get "". */
  function ApplicationCodeAsWritten(title: string): string {
    if title == "Software Engineer" then "SE2024"
    else if title == "Full Stack Web Developer" then "FSWD2024"
    else if title == "Social Media Manager" then "SMM2024"
    else if title == "Quantitative Researcher" then "X4413"
    else if title == "Data Engineer" then "DE2024"
    else if title == "Content Creator" then "CC2024"
    else if title == "Video Editor" then "VE2024"
    else ""
  }

  /** The `emailId` chain with the branch for Quant Developer that its
      application instructions call for. */
  function ApplicationCode(title: string): (code: string)
    ensures title != QUANT_DEVELOPER.title ==> code == ApplicationCodeAsWritten(title)
  {
    if title == QUANT_DEVELOPER.title then "QD2024" else ApplicationCodeAsWritten(title)
  }

  /** The `mailto:` link "Apply Now" opens. */
  function MailtoHref(title: string, code: string): string {
    "mailto:careers@bluebuckresearch.com?subject=Application for " + title + "&body=" + code
  }

  function ApplyHref(p: JobPosition): string {
    MailtoHref(p.title, ApplicationCode(p.title))
  }

  /** The body code each listed position's "Apply Now" sends. */
  lemma FixtureCodes()
    ensures ApplicationCode(SOCIAL_MEDIA_MANAGER.title) == "SMM2024"
    ensures ApplicationCode(FULL_STACK_WEB_DEVELOPER.title) == "FSWD2024"
    ensures ApplicationCode(SOFTWARE_ENGINEER.title) == "SE2024"
    ensures ApplicationCode(DATA_ENGINEER.title) == "DE2024"
    ensures ApplicationCode(QUANTITATIVE_RESEARCHER.title) == "X4413"
    ensures ApplicationCode(CONTENT_CREATOR.title) == "CC2024"
    ensures ApplicationCode(QUANT_DEVELOPER.title) == "QD2024"
    ensures ApplicationCode(VIDEO_EDITOR.title) == "VE2024"
  {
  }

  /** Every position's body code is the unique string its instructions ask for. */
  lemma CodesMatchInstructions()
    ensures forall p :: p in POSITIONS ==>
              OccursAt(p.howToApply, Quoted(ApplicationCode(p.title)), |INSTRUCTIONS_HEAD|)
  {
    FixtureCodes();
  }

  /** The link's body parameter is the code, after the subject. */
  lemma MailtoCarriesBody(title: string, code: string)
    ensures OccursAt(MailtoHref(title, code), "subject=Application for " + title, 36)
    ensures IsSuffix(MailtoHref(title, code), "&body=" + code)
  {
    var head := "mailto:careers@bluebuckresearch.com?";
    var h := MailtoHref(title, code);
    assert h == head + ("subject=Application for " + title) + ("&body=" + code);
    assert |head| == 36;
    assert h[36..36 + |"subject=Application for " + title|] == "subject=Application for " + title;
  }

  /** As written, the Quant Developer application opens an e-mail with an empty
      body, although its instructions ask for "QD2024"; the card navigates
      nowhere. */
  lemma QuantDeveloperAsWritten()
    ensures ApplicationCodeAsWritten(QUANT_DEVELOPER.title) == ""
    ensures OccursAt(QUANT_DEVELOPER.howToApply, Quoted("QD2024"), |INSTRUCTIONS_HEAD|)
    ensures IsSuffix(MailtoHref(QUANT_DEVELOPER.title, ApplicationCodeAsWritten(QUANT_DEVELOPER.title)), "&body=")
    ensures RouteFor(QUANT_DEVELOPER.title) == None
  {
    FixtureRoutes();
    assert ApplicationCodeAsWritten(QUANT_DEVELOPER.title) == "";
    MailtoCarriesBody(QUANT_DEVELOPER.title, "");
    assert "&body=" + "" == "&body=";
  }
}
