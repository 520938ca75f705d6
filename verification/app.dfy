/** The page (App.tsx): the one selection cell, the `selectedId` the map
    receives, the controls that write the selection, and which panels exist. */
module App {
  import opened Types
  import opened Organelles
  import opened CellMap
  import opened AITutor
  import opened Text

  /** The selected value: nothing, a record, or the empty object `{}`. */
  type Selection = Option<Report>

  /** `selectedOrganelle?.id || null`: the empty object and an empty id both
      give null. */
  function SelectedId(sel: Selection): (r: Option<string>)
    ensures r.Some? <==> sel.Some? && sel.value.Record? && sel.value.o.id != ""
    ensures r.Some? ==> r.value == sel.value.o.id
    ensures r.Some? <==> Truthy(r)
  {
    match sel
    case Some(Record(o)) => if o.id != "" then Some(o.id) else None
    case _ => None
  }

  /** The detail panel, the tutor panel and the header back button exist
      exactly while the selection is non-null. */
  predicate PanelsShown(sel: Selection) {
    sel.Some?
  }

  /** The user's actions on the page. `MapClick` carries the proxies under the
      pointer, nearest first. */
  datatype UiEvent = MapClick(hits: seq<Proxy>) | MapBack | HeaderBack | DetailClose

  /** `onSelect`: whatever the map reports replaces the selection. */
  function OnSelect(sel: Selection, reported: Option<Report>): Selection {
    if reported.Some? then Some(reported.value) else sel
  }

  /** The page's transitions as the source wires them. The map's back control
      reports `{}`; both close buttons set null. */
  function Step(sel: Selection, e: UiEvent): (r: Selection)
    ensures e.MapClick? && e.hits != [] ==> r == Some(Record(e.hits[0].item))
    ensures e.MapClick? && e.hits == [] ==> r == sel
    ensures e.HeaderBack? || e.DetailClose? ==> r.None?
    ensures e.MapBack? ==> (SelectedId(sel).Some? ==> r == Some(Blank)) && (SelectedId(sel).None? ==> r == sel)
  {
    match e
    case MapClick(hits) => OnSelect(sel, DispatchClick(hits))
    case MapBack => OnSelect(sel, BackControl(SelectedId(sel)))
    case HeaderBack => None
    case DetailClose => None
  }

  /** Clicking a decorative copy selects exactly what clicking its primary
      selects, and the map is told the primary's id. */
  lemma DecorativeClickSelectsPrimary(ps: seq<Proxy>, i: int, sel: Selection)
    requires SceneShape(ps) && 9 <= i < 14
    ensures var k := if i < 12 then 6 else 7;
      && Step(sel, MapClick([ps[i]])) == Step(sel, MapClick([ps[k]]))
      && SelectedId(Step(sel, MapClick([ps[i]]))) == Some(ps[k].item.id)
  {
    var k := if i < 12 then 6 else 7;
    assert ps[i].item == ps[k].item;
  }

  /** Both close controls clear: panels gone, camera back to the overview. */
  lemma ClosingReturnsToOverview(sel: Selection)
    ensures Step(sel, HeaderBack) == None && Step(sel, DetailClose) == None
    ensures !PanelsShown(Step(sel, HeaderBack))
    ensures CameraFor(Catalog, SelectedId(Step(sel, HeaderBack))) == Some(Overview)
  {
  }

  /** The map's back control is not a clear: the map is told null, so the
      camera returns to the overview, yet the selection stays non-null, so
      the panels stay. */
  lemma MapBackIsNotClear(o: Organelle)
    requires o.id != ""
    ensures Step(Some(Record(o)), MapBack) == Some(Blank)
    ensures SelectedId(Step(Some(Record(o)), MapBack)).None?
    ensures CameraFor(Catalog, SelectedId(Step(Some(Record(o)), MapBack))) == Some(Overview)
    ensures PanelsShown(Step(Some(Record(o)), MapBack))
    ensures Step(Some(Record(o)), MapBack) != Step(Some(Record(o)), HeaderBack)
  {
  }

  /** From the overview, clicking the mitochondria selects its record, whose
      tagline is "动力工厂", and the camera frames it from 6 units away. */
  lemma OverviewToMitochondria(ps: seq<Proxy>)
    requires SceneShape(ps)
    ensures Step(None, MapClick([ps[7]])) == Some(Record(Catalog[7]))
    ensures SelectedId(Step(None, MapClick([ps[7]]))) == Some(MitochondriaId)
    ensures PanelsShown(Step(None, MapClick([ps[7]])))
    ensures Catalog[7].shortDescription == "动力工厂"
    ensures CameraFor(Catalog, SelectedId(Step(None, MapClick([ps[7]]))))
         == Some(LookAt(Vec3(2.5, -3.5, 6.8), Vec3(2.5, -3.5, 0.8)))
  {
    var sel := Step(None, MapClick([ps[7]]));
    assert sel == Some(Record(ps[7].item));
    assert ps[7].item == Catalog[7];
    assert SelectedId(sel) == Some(MitochondriaId);
    FocusMitochondria();
  }

  /** The wall and the membrane are drawn from the inside, so a click on the
      background inside the cell's outline hits the membrane's far face first,
      then the wall's. Such a click focuses the membrane instead of returning
      to the overview, whatever was selected before. */
  lemma BackgroundClickSelectsMembrane(ps: seq<Proxy>, sel: Selection)
    requires SceneShape(ps)
    ensures Step(sel, MapClick([ps[1], ps[0]])) == Some(Record(Catalog[1]))
    ensures SelectedId(Step(sel, MapClick([ps[1], ps[0]]))) == Some(CellMembraneId)
    ensures Truthy(SelectedId(Step(sel, MapClick([ps[1], ps[0]]))))
  {
  }

  // ---------------------------------------------------------------------------
  // The tutor panel across selection changes

  /** The tutor's state after the selection changes from `before` to `after`:
      mounted fresh when the panels appear, reset by its greeting effect when
      the record's id changes, discarded when the panels go. */
  function TutorAfter(before: Selection, after: Selection, chat: Option<Chat>): (r: Option<Chat>)
    ensures r.Some? ==> after.Some? && after.value.Record?
    ensures after.Some? && after.value.Record? && (before.None? || chat.None?) ==> r == Some(Mounted(after.value.o))
    ensures before.Some? && before.value.Record? && after.Some? && after.value.Record? && chat.Some? ==>
      && r.Some?
      && r.value.input == chat.value.input && r.value.loading == chat.value.loading
      && (before.value.o.id == after.value.o.id ==> r.value == chat.value)
      && (before.value.o.id != after.value.o.id ==> r.value.messages == [Greeting(after.value.o)])
  {
    match after
    case Some(Record(b)) =>
      if chat.Some? && before.Some? && before.value.Record? then Some(OnOrganelle(chat.value, before.value.o.id, b))
      else Some(Mounted(b))
    case _ => None
  }

  /** Switching from record A to a record B with another id leaves exactly one
      message: B's greeting, which names B's first word. */
  lemma SwitchResetsChat(a: Organelle, b: Organelle, chat: Chat)
    requires a.id != b.id
    ensures var r := TutorAfter(Some(Record(a)), Some(Record(b)), Some(chat));
      && r.Some? && |r.value.messages| == 1
      && r.value.messages[0].role == Model
      && r.value.messages[0] == Greeting(b)
      && r.value.input == chat.input && r.value.loading == chat.loading
  {
  }

  /** The panel's one-request-at-a-time guard does not outlive the panel:
      closing while a request is pending discards the busy panel, and
      reselecting mounts an idle one that accepts a second request while the
      first is still unanswered. */
  lemma ReopenStartsSecondRequest(p: Proxy, q: string)
    requires q != [] && !IsJsWhitespace(q[0])
    ensures var shown := Step(None, MapClick([p]));
      var first := BeginSend(Mounted(p.item), p.item, Some(q));
      var closed := Step(shown, HeaderBack);
      var reopened := Step(closed, MapClick([p]));
      var tutor := TutorAfter(closed, reopened, TutorAfter(shown, closed, Some(first.chat)));
      && first.request == Some(Request(p.item.name, q)) && first.chat.loading
      && TutorAfter(shown, closed, Some(first.chat)).None?
      && tutor.Some? && !tutor.value.loading
      && BeginSend(tutor.value, p.item, Some(q)).request == Some(Request(p.item.name, q))
  {
    NotBlankWhenLeadingNonWhitespace(q);
    TrimEmptyIffBlank(q);
  }

  // ---------------------------------------------------------------------------
  // The back control as evidently intended

  /** The page is coherent when the panels exist exactly while the map is
      focused on something. */
  predicate Coherent(sel: Selection) {
    PanelsShown(sel) <==> Truthy(SelectedId(sel))
  }

  /** As written, the map's back control breaks coherence: panels without a
      focus (and the panels then render the empty object). */
  lemma MapBackBreaksCoherence(o: Organelle)
    requires o.id != ""
    ensures Coherent(Some(Record(o)))
    ensures !Coherent(Step(Some(Record(o)), MapBack))
  {
  }

  /** The transitions with the map's back control clearing the selection, as
      the header and detail close buttons do. */
  function StepIntended(sel: Selection, e: UiEvent): (r: Selection)
    ensures !e.MapBack? ==> r == Step(sel, e)
    ensures e.MapBack? && Truthy(SelectedId(sel)) ==> r == Step(sel, HeaderBack)
  {
    match e
    case MapBack => if Truthy(SelectedId(sel)) then None else sel
    case _ => Step(sel, e)
  }

  /** Every event the page can deliver keeps the intended transitions
      coherent (map clicks carry catalog proxies, whose ids are non-empty). */
  lemma IntendedKeepsCoherent(sel: Selection, e: UiEvent)
    requires Coherent(sel)
    requires e.MapClick? ==> forall i :: 0 <= i < |e.hits| ==> e.hits[i].item.id != ""
    ensures Coherent(StepIntended(sel, e))
  {
  }

  /** The selection after a sequence of events under the intended transitions. */
  function RunIntended(sel: Selection, events: seq<UiEvent>): Selection
    decreases |events|
  {
    if events == [] then sel else StepIntended(RunIntended(sel, events[..|events| - 1]), events[|events| - 1])
  }

  /** Map clicks that only ever carry catalog proxies. */
  predicate ClicksOnCatalog(events: seq<UiEvent>) {
    forall k, i :: 0 <= k < |events| && events[k].MapClick? && 0 <= i < |events[k].hits| ==>
      events[k].hits[i].item.id != ""
  }

  /** Starting from the overview, the intended page stays coherent forever. */
  lemma {:induction false} IntendedAlwaysCoherent(events: seq<UiEvent>)
    requires ClicksOnCatalog(events)
    ensures Coherent(RunIntended(None, events))
    decreases |events|
  {
    if events != [] {
      var n := |events| - 1;
      assert ClicksOnCatalog(events[..n]) by {
        forall k, i | 0 <= k < n && events[..n][k].MapClick? && 0 <= i < |events[..n][k].hits|
          ensures events[..n][k].hits[i].item.id != ""
        {
          assert events[..n][k] == events[k];
        }
      }
      IntendedAlwaysCoherent(events[..n]);
      IntendedKeepsCoherent(RunIntended(None, events[..n]), events[n]);
    }
  }
}
