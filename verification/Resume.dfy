/** The validated resume tree and the template constants
    (resume-renderer-v2/app.py, 52-76, 360-401, 477-498). */
module Resume {
  import opened Basics

  datatype Node = Node(id: string, text: string, claimIds: seq<string>, emphasis: seq<string>)

  datatype Kind = Experience | Projects | Education | Skills | Details | Metrics | Custom

  datatype Placement = Main | Sidebar

  datatype Entry = Entry(id: string, header: seq<Node>, body: seq<Node>)

  datatype Section = Section(id: string, title: string, kind: Kind, placement: Placement, entries: seq<Entry>)

  datatype Candidate = Candidate(name: Node, headline: Node, contact: seq<Node>)

  datatype Ast = Ast(candidate: Candidate, summary: Option<Node>, sections: seq<Section>, pagePreference: int)

  const PAGE_WIDTH: real := 612.0
  const PAGE_HEIGHT: real := 792.0
  const MARGIN: real := 42.0
  const PRINTABLE_TOP: real := PAGE_HEIGHT - MARGIN
  const PRINTABLE_BOTTOM: real := MARGIN
  const PRINTABLE_HEIGHT: real := PRINTABLE_TOP - PRINTABLE_BOTTOM
  const PAGE_TWO_MINIMUM_OCCUPANCY: real := 0.4
  const MAIN_X: real := 42.0
  const MAIN_WIDTH: real := 354.0
  const SIDEBAR_CONTENT_X: real := 409.0
  const SIDEBAR_CONTENT_WIDTH: real := 151.0
  const CONTENT_BOTTOM: real := 56.0

  datatype Density = Density(
    name: string, bodySize: real, supportSize: real, bodyLeading: real, supportLeading: real,
    sectionSize: real, sectionLeading: real, sectionGap: real, entryGap: real, bulletGap: real)

  const DENSITIES: seq<Density> := [
    Density("editorial", 9.2, 8.0, 12.2, 10.2, 12.2, 13.4, 10.0, 8.0, 4.0),
    Density("airy", 8.8, 7.8, 11.5, 9.8, 12.2, 13.4, 8.0, 6.5, 3.4),
    Density("standard", 8.5, 7.6, 10.8, 9.3, 12.2, 13.4, 6.5, 5.0, 3.0),
    Density("compact", 8.5, 7.5, 10.2, 9.0, 12.2, 13.4, 5.0, 3.5, 2.5)]

  /** The top of the content area of each page (resume-renderer-v2/app.py, 693 and 727). */
  function ContentTops(maximumPages: nat): (tops: seq<real>)
    requires 1 <= maximumPages
  {
    seq(maximumPages, i requires 0 <= i < maximumPages => if i == 0 then 666.0 else 696.0)
  }

  /** The part of validate_ast that layout relies on (resume-renderer-v2/app.py, 318-375). */
  predicate WellFormedEntry(e: Entry) {
    1 <= |e.header| <= 5 && |e.body| <= 12
  }

  predicate WellFormedSection(s: Section) {
    && 1 <= |s.entries| <= 20
    && (forall e :: e in s.entries ==> WellFormedEntry(e))
    && (s.kind == Experience && s.placement == Main ==>
          forall e :: e in s.entries ==> |e.header| == 2 && |e.body| <= 3)
    && (s.kind == Metrics ==>
          && s.placement == Sidebar
          && 2 <= |s.entries| <= 4
          && forall e :: e in s.entries ==> |e.header| == 1 && |e.body| == 1)
  }

  predicate WellFormed(ast: Ast) {
    && |ast.candidate.contact| <= 5
    && 1 <= |ast.sections| <= 12
    && (forall s :: s in ast.sections ==> WellFormedSection(s))
    && (exists s :: s in ast.sections && s.placement == Main)
  }

  /** Sections of one column, in document order. */
  function Placed(sections: seq<Section>, placement: Placement): seq<Section> {
    if sections == [] then []
    else (if sections[0].placement == placement then [sections[0]] else []) + Placed(sections[1..], placement)
  }

  lemma {:induction false} PlacedMembers(sections: seq<Section>, placement: Placement)
    ensures forall s :: s in Placed(sections, placement) <==> s in sections && s.placement == placement
  {
    if sections != [] {
      PlacedMembers(sections[1..], placement);
      assert forall s :: s in sections <==> s == sections[0] || s in sections[1..];
    }
  }

  /** The relations between type sizes, leadings and gaps that the geometry proofs rest on. */
  predicate DensityOk(d: Density) {
    && 0.0 < d.bodySize <= d.bodyLeading && d.bodySize <= 12.2
    && 0.0 < d.supportSize <= d.supportLeading && d.supportSize <= 12.2
    && 1.22 * d.bodySize <= d.bodyLeading + 1.0 && 1.0 <= d.bulletGap
    && 1.22 * d.supportSize <= d.supportLeading + 1.0
    && 0.0 < d.sectionSize <= d.sectionLeading && d.sectionSize <= 12.2
    && 0.0 <= d.sectionGap && 0.0 <= d.entryGap
  }

  /** `tight` sets the same resume no larger than `loose` in any dimension. */
  predicate Tighter(tight: Density, loose: Density) {
    && tight.bodySize <= loose.bodySize && tight.supportSize <= loose.supportSize
    && tight.bodyLeading <= loose.bodyLeading && tight.supportLeading <= loose.supportLeading
    && tight.sectionSize == loose.sectionSize && tight.sectionLeading == loose.sectionLeading
    && tight.sectionGap <= loose.sectionGap && tight.entryGap <= loose.entryGap
    && tight.bulletGap <= loose.bulletGap
  }

  lemma DensitiesOk()
    ensures forall d :: d in DENSITIES ==> DensityOk(d)
    ensures forall i, j :: 0 <= i <= j < |DENSITIES| ==> Tighter(DENSITIES[j], DENSITIES[i])
  {}
}
