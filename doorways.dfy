/**
 * Doorway occupancy of game.js: the five entrance boxes in insertion order,
 * the list of those containing the avatar, and the entrance popup that list
 * selects.
 */
module Doorways {
  import opened Vectors
  import opened Collision

  /** The keys of `doorways`. */
  datatype Showcase = Projects | AboutMe | Experience | Skills | Shop

  /** game.js:305-321: the entrance boxes. */
  const ProjectsDoor: Box3 := Box3(Vec3(105.0, -50.0, 132.0), Vec3(188.0, 50.0, 408.0))
  const AboutMeDoor: Box3 := Box3(Vec3(105.0, -50.0, -46.0), Vec3(188.0, 50.0, 86.0))
  const ExperienceDoor: Box3 := Box3(Vec3(117.0, -50.0, -60.0), Vec3(292.0, 50.0, 20.0))
  const SkillsDoor: Box3 := Box3(Vec3(365.0, -50.0, -60.0), Vec3(504.0, 50.0, 20.0))
  const ShopDoor: Box3 := Box3(Vec3(365.0, -50.0, -60.0), Vec3(504.0, 50.0, 20.0))

  datatype Door = Door(showcase: Showcase, box: Box3)

  /** `Object.entries(doorways)`: string keys come back in the order they were assigned. */
  const Doors: seq<Door> := [
    Door(Projects, ProjectsDoor), Door(AboutMe, AboutMeDoor), Door(Experience, ExperienceDoor),
    Door(Skills, SkillsDoor), Door(Shop, ShopDoor)]

  /** The showcases of the doors whose box contains `p`, in list order. */
  function Occupied(doors: seq<Door>, p: Vec3): (r: seq<Showcase>)
    ensures |r| <= |doors|
    decreases |doors|
  {
    if doors == [] then []
    else
      var k := |doors| - 1;
      Occupied(doors[..k], p) + if ContainsPoint(doors[k].box, p) then [doors[k].showcase] else []
  }

  /** A showcase is listed exactly when one of its doors contains the point. */
  lemma {:induction false} OccupiedMembers(doors: seq<Door>, p: Vec3, s: Showcase)
    ensures s in Occupied(doors, p) <==>
            exists i :: 0 <= i < |doors| && doors[i].showcase == s && ContainsPoint(doors[i].box, p)
    decreases |doors|
  {
    if doors != [] {
      var k := |doors| - 1;
      OccupiedMembers(doors[..k], p, s);
      if exists i :: 0 <= i < |doors| && doors[i].showcase == s && ContainsPoint(doors[i].box, p) {
        var i :| 0 <= i < |doors| && doors[i].showcase == s && ContainsPoint(doors[i].box, p);
        if i < k {
          assert doors[..k][i] == doors[i];
        }
      }
      if s in Occupied(doors[..k], p) {
        var i :| 0 <= i < k && doors[..k][i].showcase == s && ContainsPoint(doors[..k][i].box, p);
        assert doors[i] == doors[..k][i];
      }
    }
  }

  /** `onDoorway`'s `forEach` (game.js:381-390) as a loop pushing onto `standingOn`. */
  method StandingOn(doors: seq<Door>, p: Vec3) returns (standing: seq<Showcase>)
    ensures standing == Occupied(doors, p)
  {
    standing := [];
    var i := 0;
    while i < |doors|
      invariant 0 <= i <= |doors|
      invariant standing == Occupied(doors[..i], p)
    {
      assert doors[..i + 1][..i] == doors[..i];
      if ContainsPoint(doors[i].box, p) {
        standing := standing + [doors[i].showcase];
      }
      i := i + 1;
    }
    assert doors[..i] == doors;
  }

  function When(b: bool, s: Showcase): seq<Showcase> {
    if b then [s] else []
  }

  /** One more door at the end adds its showcase at the end, if it holds the point. */
  lemma OccupiedSnoc(doors: seq<Door>, d: Door, p: Vec3)
    ensures Occupied(doors + [d], p) == Occupied(doors, p) + When(ContainsPoint(d.box, p), d.showcase)
  {
    assert (doors + [d])[..|doors|] == doors;
  }

  /** For the five doors: each showcase whose box holds the point, in insertion order. */
  lemma OccupiedInOrder(p: Vec3)
    ensures Occupied(Doors, p) ==
      When(ContainsPoint(ProjectsDoor, p), Projects) + When(ContainsPoint(AboutMeDoor, p), AboutMe)
      + When(ContainsPoint(ExperienceDoor, p), Experience) + When(ContainsPoint(SkillsDoor, p), Skills)
      + When(ContainsPoint(ShopDoor, p), Shop)
  {
    var d0, d1, d2, d3, d4 := Doors[0], Doors[1], Doors[2], Doors[3], Doors[4];
    assert Doors == [] + [d0] + [d1] + [d2] + [d3] + [d4];
    OccupiedSnoc([], d0, p);
    OccupiedSnoc([] + [d0], d1, p);
    OccupiedSnoc([] + [d0] + [d1], d2, p);
    OccupiedSnoc([] + [d0] + [d1] + [d2], d3, p);
    OccupiedSnoc([] + [d0] + [d1] + [d2] + [d3], d4, p);
  }

  /** The skills and shop boxes coincide, so the two are always listed together, skills first. */
  lemma SkillsWithShop(p: Vec3)
    ensures Skills in Occupied(Doors, p) <==> Shop in Occupied(Doors, p)
    ensures Skills in Occupied(Doors, p) ==>
      Occupied(Doors, p)[|Occupied(Doors, p)| - 2..] == [Skills, Shop]
  {
    OccupiedInOrder(p);
  }

  /**
   * The entrance popup (game.js:328-379) in the abstract: whether the
   * container is shown, which enter buttons are shown, and which text.
   */
  datatype Popup = Popup(shown: bool, buttons: set<Showcase>, oneOption: bool, twoOptions: bool)

  /** `resetPopupText` (game.js:328-339): everything hidden. */
  const Hidden: Popup := Popup(false, {}, false, false)

  /** `turnOptionsOn(showcases, length)` (game.js:341-379). */
  function TurnOptionsOn(showcases: seq<Showcase>, length: int): (r: Popup)
    ensures r.shown
    ensures r.twoOptions <==> length > 1
    ensures r.oneOption <==> !r.twoOptions
    ensures forall s :: s in r.buttons <==> s in showcases
  {
    Popup(true, (set s | s in showcases), length <= 1, length > 1)
  }

  /** game.js:391-396: the popup for what the avatar stands on. */
  function PopupFor(standing: seq<Showcase>): Popup {
    if |standing| > 0 then TurnOptionsOn(standing, |standing|) else Hidden
  }

  /**
   * The popup shows exactly the buttons of the doors stood on, the two-option
   * text exactly when there is more than one, and nothing at all when none.
   */
  lemma PopupMeaning(standing: seq<Showcase>)
    ensures PopupFor(standing).shown <==> |standing| > 0
    ensures PopupFor(standing).twoOptions <==> |standing| > 1
    ensures PopupFor(standing).oneOption <==> |standing| == 1
    ensures forall s :: s in PopupFor(standing).buttons <==> s in standing
    ensures |standing| == 0 ==> PopupFor(standing) == Hidden
  {
  }

  /** On the skills and shop entrance the popup always offers two options. */
  lemma SkillsDoorOffersTwo(p: Vec3)
    requires ContainsPoint(SkillsDoor, p)
    ensures PopupFor(Occupied(Doors, p)).twoOptions
    ensures PopupFor(Occupied(Doors, p)).buttons >= {Skills, Shop}
  {
    OccupiedInOrder(p);
    assert ContainsPoint(ShopDoor, p);
  }
}
