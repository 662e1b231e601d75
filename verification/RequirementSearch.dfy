/** The depth-bounded search for a requirement text in a JSON value. */
module RequirementSearch {
  import opened Text
  import opened Json

  const REQUIREMENT_SEARCH_DEPTH := 3

  type Path = seq<string>

  datatype Query = Query(
    textPaths: seq<Path>,
    listPaths: seq<Path>,
    nestedPaths: seq<Path>,
    wanted: string -> bool)

  // ---------------------------------------------------------------------------------------------
  // The program
  // ---------------------------------------------------------------------------------------------

  function HopsLeft(depth: nat): nat {
    if depth >= REQUIREMENT_SEARCH_DEPTH then 0 else REQUIREMENT_SEARCH_DEPTH - depth
  }

  function FindRequirementText(value: Json, q: Query, includeCurrent: bool): Option<string> {
    FindDepth(value, q, includeCurrent, 0)
  }

  function FindDepth(value: Json, q: Query, includeCurrent: bool, depth: nat): Option<string>
    decreases HopsLeft(depth), 1
  {
    if includeCurrent && value.Str? && q.wanted(value.text) then Some(value.text)
    else
      match FindAtTextPaths(value, q.textPaths, q.wanted)
      case Some(text) => Some(text)
      case None =>
        if depth >= REQUIREMENT_SEARCH_DEPTH then None
        else
          match FindInLists(value, q.listPaths, q, depth)
          case Some(text) => Some(text)
          case None => FindInNested(value, q.nestedPaths, q, includeCurrent, depth)
  }

  function FindAtTextPaths(value: Json, paths: seq<Path>, wanted: string -> bool): Option<string> {
    if paths == [] then None
    else
      match FirstString(value, [paths[0]])
      case Some(text) => if wanted(text) then Some(text) else FindAtTextPaths(value, paths[1..], wanted)
      case None => FindAtTextPaths(value, paths[1..], wanted)
  }

  function FindInItems(items: seq<Json>, q: Query, includeCurrent: bool, depth: nat): Option<string>
    decreases HopsLeft(depth), 2, |items|
  {
    if items == [] then None
    else
      match FindDepth(items[0], q, includeCurrent, depth)
      case Some(text) => Some(text)
      case None => FindInItems(items[1..], q, includeCurrent, depth)
  }

  function FindInList(found: Option<Json>, q: Query, depth: nat): Option<string>
    decreases HopsLeft(depth), 3
  {
    match found
    case Some(Arr(items)) => FindInItems(items, q, true, depth)
    case _ => None
  }

  function FindInLists(value: Json, paths: seq<Path>, q: Query, depth: nat): Option<string>
    requires depth < REQUIREMENT_SEARCH_DEPTH
    decreases HopsLeft(depth), 0, |paths|
  {
    if paths == [] then None
    else
      match FindInList(ValueAtPath(value, paths[0]), q, depth + 1)
      case Some(text) => Some(text)
      case None => FindInLists(value, paths[1..], q, depth)
  }

  function FindInNest(found: Option<Json>, q: Query, includeCurrent: bool, depth: nat): Option<string>
    decreases HopsLeft(depth), 3
  {
    match found
    case None => None
    case Some(Arr(items)) => FindInItems(items, q, includeCurrent, depth)
    case Some(item) => FindDepth(item, q, includeCurrent, depth)
  }

  function FindInNested(value: Json, paths: seq<Path>, q: Query, includeCurrent: bool, depth: nat): Option<string>
    requires depth < REQUIREMENT_SEARCH_DEPTH
    decreases HopsLeft(depth), 0, |paths|
  {
    if paths == [] then None
    else
      match FindInNest(ValueAtPath(value, paths[0]), q, includeCurrent, depth + 1)
      case Some(text) => Some(text)
      case None => FindInNested(value, paths[1..], q, includeCurrent, depth)
  }

  // ---------------------------------------------------------------------------------------------
  // The relation
  // ---------------------------------------------------------------------------------------------

  /** A value to look at, and whether it may itself be the text. */
  datatype Place = Place(value: Json, mayBeText: bool)

  /** One hop: to an item of a list, which may itself be the text, or to a nested value or an item
      of a nested list, which may be when the place it is reached from may. */
  ghost predicate Hop(from: Place, q: Query, to: Place) {
    || (SomeListItem(from.value, q.listPaths, to.value) && to.mayBeText)
    || (SomeNested(from.value, q.nestedPaths, to.value) && to.mayBeText == from.mayBeText)
  }

  ghost predicate SomeListItem(value: Json, paths: seq<Path>, item: Json) {
    exists path :: path in paths && IsListItem(value, path, item)
  }

  ghost predicate SomeNested(value: Json, paths: seq<Path>, item: Json) {
    exists path :: path in paths && IsNested(value, path, item)
  }

  ghost predicate IsListItem(value: Json, path: Path, item: Json) {
    exists list :: LeadsTo(value, path, list) && list.Arr? && item in list.items
  }

  ghost predicate IsNested(value: Json, path: Path, item: Json) {
    exists nested :: LeadsTo(value, path, nested) &&
      if nested.Arr? then item in nested.items else item == nested
  }

  /** A place offers its own text, if it may be the text, and the texts at the text paths. */
  ghost predicate Offers(place: Place, q: Query, text: string) {
    || (place.mayBeText && place.value == Str(text))
    || SomeTextAt(place.value, q.textPaths, text)
  }

  ghost predicate SomeTextAt(value: Json, paths: seq<Path>, text: string) {
    exists path :: path in paths && IsTextAt(value, path, text)
  }

  /** A text is offered by a place that is `n` hops away. */
  ghost predicate Reachable(from: Place, q: Query, n: nat, text: string)
    decreases n
  {
    if n == 0 then Offers(from, q, text)
    else exists to :: Hop(from, q, to) && Reachable(to, q, n - 1, text)
  }

  // ---------------------------------------------------------------------------------------------
  // All texts in search order
  // ---------------------------------------------------------------------------------------------

  function OwnTexts(place: Place, paths: seq<Path>): seq<string> {
    (if place.mayBeText && place.value.Str? then [place.value.text] else []) + TextsAt(place.value, paths)
  }

  function TextsAt(value: Json, paths: seq<Path>): seq<string> {
    if paths == [] then []
    else
      (match StringAtPath(value, paths[0])
       case Some(text) => [text]
       case None => []) + TextsAt(value, paths[1..])
  }

  function Places(items: seq<Json>, mayBeText: bool): seq<Place> {
    if items == [] then [] else [Place(items[0], mayBeText)] + Places(items[1..], mayBeText)
  }

  function PlacesInList(found: Option<Json>): seq<Place> {
    match found
    case Some(Arr(items)) => Places(items, true)
    case _ => []
  }

  function ListPlaces(value: Json, paths: seq<Path>): seq<Place> {
    if paths == [] then [] else PlacesInList(ValueAtPath(value, paths[0])) + ListPlaces(value, paths[1..])
  }

  function PlacesInNest(found: Option<Json>, mayBeText: bool): seq<Place> {
    match found
    case None => []
    case Some(Arr(items)) => Places(items, mayBeText)
    case Some(item) => [Place(item, mayBeText)]
  }

  function NestedPlaces(value: Json, paths: seq<Path>, mayBeText: bool): seq<Place> {
    if paths == [] then []
    else PlacesInNest(ValueAtPath(value, paths[0]), mayBeText) + NestedPlaces(value, paths[1..], mayBeText)
  }

  function NextPlaces(place: Place, q: Query): seq<Place> {
    ListPlaces(place.value, q.listPaths) + NestedPlaces(place.value, q.nestedPaths, place.mayBeText)
  }

  /** Every text within the given number of hops, in depth-first order. */
  function Texts(place: Place, q: Query, hops: nat): seq<string>
    decreases hops, 0
  {
    OwnTexts(place, q.textPaths) + if hops == 0 then [] else TextsOf(NextPlaces(place, q), q, hops - 1)
  }

  function TextsOf(places: seq<Place>, q: Query, hops: nat): seq<string>
    decreases hops, 1, |places|
  {
    if places == [] then [] else Texts(places[0], q, hops) + TextsOf(places[1..], q, hops)
  }

  function First(texts: seq<string>, wanted: string -> bool): Option<string> {
    if texts == [] then None
    else if wanted(texts[0]) then Some(texts[0])
    else First(texts[1..], wanted)
  }

  lemma {:induction false} FirstProperties(texts: seq<string>, wanted: string -> bool)
    ensures First(texts, wanted).Some? <==> exists text :: text in texts && wanted(text)
    ensures First(texts, wanted).Some? ==> First(texts, wanted).value in texts && wanted(First(texts, wanted).value)
  {
    if texts != [] {
      FirstProperties(texts[1..], wanted);
      assert texts == [texts[0]] + texts[1..];
    }
  }

  lemma {:induction false} FirstOfConcat(a: seq<string>, b: seq<string>, wanted: string -> bool)
    ensures First(a + b, wanted) == if First(a, wanted).Some? then First(a, wanted) else First(b, wanted)
  {
    if a == [] {
      assert a + b == b;
    } else {
      FirstOfConcat(a[1..], b, wanted);
      assert (a + b)[1..] == a[1..] + b;
    }
  }

  lemma TextsOfPrepend(place: Place, rest: seq<Place>, q: Query, hops: nat)
    ensures TextsOf([place] + rest, q, hops) == Texts(place, q, hops) + TextsOf(rest, q, hops)
  {
    assert ([place] + rest)[1..] == rest;
  }

  lemma {:induction false} TextsOfConcat(a: seq<Place>, b: seq<Place>, q: Query, hops: nat)
    ensures TextsOf(a + b, q, hops) == TextsOf(a, q, hops) + TextsOf(b, q, hops)
  {
    if a == [] {
      assert a + b == b;
    } else {
      TextsOfConcat(a[1..], b, q, hops);
      TextsOfPrepend(a[0], a[1..], q, hops);
      TextsOfPrepend(a[0], a[1..] + b, q, hops);
      assert a == [a[0]] + a[1..];
      ConcatAssociative([a[0]], a[1..], b);
      ConcatAssociative(Texts(a[0], q, hops), TextsOf(a[1..], q, hops), TextsOf(b, q, hops));
    }
  }

  // ---------------------------------------------------------------------------------------------
  // The search finds the first wanted text
  // ---------------------------------------------------------------------------------------------

  lemma {:induction false} TextPathsFindFirst(value: Json, paths: seq<Path>, wanted: string -> bool)
    ensures FindAtTextPaths(value, paths, wanted) == First(TextsAt(value, paths), wanted)
  {
    if paths != [] {
      TextPathsFindFirst(value, paths[1..], wanted);
      var here := match StringAtPath(value, paths[0]) case Some(text) => [text] case None => [];
      FirstOfConcat(here, TextsAt(value, paths[1..]), wanted);
      assert FirstString(value, [paths[0]]) == StringAtPath(value, paths[0]);
    }
  }

  lemma FirstOfFour(own: seq<string>, texts: seq<string>, lists: seq<string>, nested: seq<string>,
                    wanted: string -> bool)
    ensures First(own + texts + (lists + nested), wanted) ==
      if First(own, wanted).Some? then First(own, wanted)
      else if First(texts, wanted).Some? then First(texts, wanted)
      else if First(lists, wanted).Some? then First(lists, wanted)
      else First(nested, wanted)
  {
    FirstOfConcat(own, texts, wanted);
    FirstOfConcat(lists, nested, wanted);
    FirstOfConcat(own + texts, lists + nested, wanted);
  }

  lemma {:induction false} DepthFindsFirst(value: Json, q: Query, includeCurrent: bool, depth: nat)
    ensures FindDepth(value, q, includeCurrent, depth) ==
      First(Texts(Place(value, includeCurrent), q, HopsLeft(depth)), q.wanted)
    decreases HopsLeft(depth), 1
  {
    var place := Place(value, includeCurrent);
    var own, texts := if includeCurrent && value.Str? then [value.text] else [], TextsAt(value, q.textPaths);
    TextPathsFindFirst(value, q.textPaths, q.wanted);
    if depth < REQUIREMENT_SEARCH_DEPTH {
      var lists, nested := ListPlaces(value, q.listPaths), NestedPlaces(value, q.nestedPaths, includeCurrent);
      var hops := HopsLeft(depth + 1);
      ListsFindFirst(value, q.listPaths, q, depth);
      NestedFindsFirst(value, q.nestedPaths, q, includeCurrent, depth);
      FirstOfFour(own, texts, TextsOf(lists, q, hops), TextsOf(nested, q, hops), q.wanted);
      TextsInParts(place, q, hops);
    } else {
      FirstOfFour(own, texts, [], [], q.wanted);
    }
  }

  lemma TextsInParts(place: Place, q: Query, rest: nat)
    ensures Texts(place, q, rest + 1) ==
      OwnTexts(place, q.textPaths) + (TextsOf(ListPlaces(place.value, q.listPaths), q, rest) +
        TextsOf(NestedPlaces(place.value, q.nestedPaths, place.mayBeText), q, rest))
  {
    TextsOfConcat(ListPlaces(place.value, q.listPaths),
                  NestedPlaces(place.value, q.nestedPaths, place.mayBeText), q, rest);
  }

  lemma {:induction false} ItemsFindFirst(items: seq<Json>, q: Query, includeCurrent: bool, depth: nat)
    ensures FindInItems(items, q, includeCurrent, depth) ==
      First(TextsOf(Places(items, includeCurrent), q, HopsLeft(depth)), q.wanted)
    decreases HopsLeft(depth), 2, |items|
  {
    if items != [] {
      DepthFindsFirst(items[0], q, includeCurrent, depth);
      ItemsFindFirst(items[1..], q, includeCurrent, depth);
      var places := Places(items, includeCurrent);
      assert places[1..] == Places(items[1..], includeCurrent);
      FirstOfConcat(Texts(places[0], q, HopsLeft(depth)), TextsOf(places[1..], q, HopsLeft(depth)), q.wanted);
    }
  }

  lemma {:induction false} ListsFindFirst(value: Json, paths: seq<Path>, q: Query, depth: nat)
    requires depth < REQUIREMENT_SEARCH_DEPTH
    ensures FindInLists(value, paths, q, depth) ==
      First(TextsOf(ListPlaces(value, paths), q, HopsLeft(depth + 1)), q.wanted)
    decreases HopsLeft(depth), 0, |paths|
  {
    if paths != [] {
      var found, hops := ValueAtPath(value, paths[0]), HopsLeft(depth + 1);
      var here, rest := PlacesInList(found), ListPlaces(value, paths[1..]);
      ListFindsFirst(found, q, depth + 1);
      ListsFindFirst(value, paths[1..], q, depth);
      TextsOfConcat(here, rest, q, hops);
      FirstOfConcat(TextsOf(here, q, hops), TextsOf(rest, q, hops), q.wanted);
    }
  }

  lemma {:induction false} ListFindsFirst(found: Option<Json>, q: Query, depth: nat)
    ensures FindInList(found, q, depth) == First(TextsOf(PlacesInList(found), q, HopsLeft(depth)), q.wanted)
    decreases HopsLeft(depth), 3
  {
    match found {
      case Some(Arr(items)) => ItemsFindFirst(items, q, true, depth);
      case _ =>
    }
  }

  lemma {:induction false} NestedFindsFirst(value: Json, paths: seq<Path>, q: Query, includeCurrent: bool, depth: nat)
    requires depth < REQUIREMENT_SEARCH_DEPTH
    ensures FindInNested(value, paths, q, includeCurrent, depth) ==
      First(TextsOf(NestedPlaces(value, paths, includeCurrent), q, HopsLeft(depth + 1)), q.wanted)
    decreases HopsLeft(depth), 0, |paths|
  {
    if paths != [] {
      var found, hops := ValueAtPath(value, paths[0]), HopsLeft(depth + 1);
      var here, rest := PlacesInNest(found, includeCurrent), NestedPlaces(value, paths[1..], includeCurrent);
      NestFindsFirst(found, q, includeCurrent, depth + 1);
      NestedFindsFirst(value, paths[1..], q, includeCurrent, depth);
      TextsOfConcat(here, rest, q, hops);
      FirstOfConcat(TextsOf(here, q, hops), TextsOf(rest, q, hops), q.wanted);
    }
  }

  lemma {:induction false} NestFindsFirst(found: Option<Json>, q: Query, includeCurrent: bool, depth: nat)
    ensures FindInNest(found, q, includeCurrent, depth) ==
      First(TextsOf(PlacesInNest(found, includeCurrent), q, HopsLeft(depth)), q.wanted)
    decreases HopsLeft(depth), 3
  {
    match found {
      case None =>
      case Some(Arr(items)) => ItemsFindFirst(items, q, includeCurrent, depth);
      case Some(item) =>
        DepthFindsFirst(item, q, includeCurrent, depth);
        var texts := Texts(Place(item, includeCurrent), q, HopsLeft(depth));
        assert [Place(item, includeCurrent)][1..] == [];
        assert texts + [] == texts;
    }
  }

  // ---------------------------------------------------------------------------------------------
  // The texts in search order are the reachable ones
  // ---------------------------------------------------------------------------------------------

  lemma {:induction false} TextsAtAreOffered(value: Json, paths: seq<Path>, text: string)
    ensures text in TextsAt(value, paths) <==> SomeTextAt(value, paths, text)
  {
    if paths != [] {
      TextsAtAreOffered(value, paths[1..], text);
      StringAtPathIsText(value, paths[0], text);
      SomeTextStep(value, paths, text);
    }
  }

  lemma SomeTextStep(value: Json, paths: seq<Path>, text: string)
    requires paths != []
    ensures SomeTextAt(value, paths, text) <==> IsTextAt(value, paths[0], text) || SomeTextAt(value, paths[1..], text)
  {
    MembersOfTail(paths);
    assert paths[0] in paths;
  }

  lemma MembersOfTail(paths: seq<Path>)
    requires paths != []
    ensures forall path :: path in paths <==> path == paths[0] || path in paths[1..]
  {
    assert paths == [paths[0]] + paths[1..];
  }

  /** What a path leads to is one value, and the accessor gives it. */
  lemma FoundItems(value: Json, path: Path, item: Json)
    ensures var found := ValueAtPath(value, path);
      && (IsListItem(value, path, item) <==> found.Some? && found.value.Arr? && item in found.value.items)
      && (IsNested(value, path, item) <==>
            found.Some? && if found.value.Arr? then item in found.value.items else item == found.value)
  {
    forall target ensures ValueAtPath(value, path) == Some(target) <==> LeadsTo(value, path, target) {
      ValueAtPathIsTarget(value, path, target);
    }
  }

  lemma {:induction false} PlacesAreItems(items: seq<Json>, mayBeText: bool, p: Place)
    ensures p in Places(items, mayBeText) <==> p.value in items && p.mayBeText == mayBeText
  {
    if items != [] {
      PlacesAreItems(items[1..], mayBeText, p);
      assert items == [items[0]] + items[1..];
    }
  }

  lemma SomeListStep(value: Json, paths: seq<Path>, item: Json)
    requires paths != []
    ensures SomeListItem(value, paths, item) <==>
      IsListItem(value, paths[0], item) || SomeListItem(value, paths[1..], item)
  {
    MembersOfTail(paths);
    assert paths[0] in paths;
  }

  lemma SomeNestedStep(value: Json, paths: seq<Path>, item: Json)
    requires paths != []
    ensures SomeNested(value, paths, item) <==>
      IsNested(value, paths[0], item) || SomeNested(value, paths[1..], item)
  {
    MembersOfTail(paths);
    assert paths[0] in paths;
  }

  lemma {:induction false} ListPlacesAreItems(value: Json, paths: seq<Path>, p: Place)
    ensures p in ListPlaces(value, paths) <==> SomeListItem(value, paths, p.value) && p.mayBeText
  {
    if paths != [] {
      ListPlacesAreItems(value, paths[1..], p);
      FoundItems(value, paths[0], p.value);
      SomeListStep(value, paths, p.value);
      var found := ValueAtPath(value, paths[0]);
      if found.Some? && found.value.Arr? {
        PlacesAreItems(found.value.items, true, p);
      }
    }
  }

  lemma {:induction false} NestedPlacesAreNested(value: Json, paths: seq<Path>, mayBeText: bool, p: Place)
    ensures p in NestedPlaces(value, paths, mayBeText) <==>
      SomeNested(value, paths, p.value) && p.mayBeText == mayBeText
  {
    if paths != [] {
      NestedPlacesAreNested(value, paths[1..], mayBeText, p);
      FoundItems(value, paths[0], p.value);
      SomeNestedStep(value, paths, p.value);
      var found := ValueAtPath(value, paths[0]);
      if found.Some? && found.value.Arr? {
        PlacesAreItems(found.value.items, mayBeText, p);
      }
    }
  }

  lemma NextPlacesAreHops(place: Place, q: Query, p: Place)
    ensures p in NextPlaces(place, q) <==> Hop(place, q, p)
  {
    ListPlacesAreItems(place.value, q.listPaths, p);
    NestedPlacesAreNested(place.value, q.nestedPaths, place.mayBeText, p);
  }

  lemma {:induction false} TextsOfIsUnion(places: seq<Place>, q: Query, hops: nat, text: string)
    ensures text in TextsOf(places, q, hops) <==> exists p :: p in places && text in Texts(p, q, hops)
  {
    if places != [] {
      TextsOfIsUnion(places[1..], q, hops, text);
      assert places == [places[0]] + places[1..];
      if text in Texts(places[0], q, hops) {
        assert places[0] in places;
      }
    }
  }

  ghost predicate ReachableWithin(from: Place, q: Query, hops: nat, text: string) {
    exists n: nat :: n <= hops && Reachable(from, q, n, text)
  }

  lemma {:induction false} TextsAreReachable(place: Place, q: Query, hops: nat, text: string)
    ensures text in Texts(place, q, hops) <==> ReachableWithin(place, q, hops, text)
    decreases hops
  {
    if hops == 0 {
      TextsHere(place, q, text);
    } else {
      var rest := hops - 1;
      forall p ensures text in Texts(p, q, rest) <==> ReachableWithin(p, q, rest, text) {
        TextsAreReachable(p, q, rest, text);
      }
      TextsFarther(place, q, hops, rest, text);
    }
  }

  lemma TextsHere(place: Place, q: Query, text: string)
    ensures text in Texts(place, q, 0) <==> ReachableWithin(place, q, 0, text)
  {
    OwnTextsAreOffered(place, q, text);
    assert Texts(place, q, 0) == OwnTexts(place, q.textPaths);
    assert Reachable(place, q, 0, text) ==> ReachableWithin(place, q, 0, text);
  }

  lemma TextsFarther(place: Place, q: Query, hops: nat, rest: nat, text: string)
    requires hops == rest + 1
    requires forall p :: text in Texts(p, q, rest) <==> ReachableWithin(p, q, rest, text)
    ensures text in Texts(place, q, hops) <==> ReachableWithin(place, q, hops, text)
  {
    var here := text in OwnTexts(place, q.textPaths);
    var there := text in TextsOf(NextPlaces(place, q), q, rest);
    assert text in Texts(place, q, hops) <==> here || there by {
      TextsHereAndThere(place, q, hops, text);
    }
    assert ReachableWithin(place, q, hops, text) <==> here || there by {
      TextsOneHopAway(place, q, rest, text);
      ReachedHereOrThere(place, q, hops, rest, text);
    }
  }

  lemma ReachedHereOrThere(place: Place, q: Query, hops: nat, rest: nat, text: string)
    requires hops == rest + 1
    ensures ReachableWithin(place, q, hops, text) <==>
      text in OwnTexts(place, q.textPaths) || exists p :: Hop(place, q, p) && ReachableWithin(p, q, rest, text)
  {
    OwnTextsAreOffered(place, q, text);
    ReachableStep(place, q, hops, text);
  }

  lemma TextsHereAndThere(place: Place, q: Query, hops: nat, text: string)
    requires hops > 0
    ensures text in Texts(place, q, hops) <==>
      text in OwnTexts(place, q.textPaths) || text in TextsOf(NextPlaces(place, q), q, hops - 1)
  {
  }

  lemma TextsOneHopAway(place: Place, q: Query, rest: nat, text: string)
    requires forall p :: text in Texts(p, q, rest) <==> ReachableWithin(p, q, rest, text)
    ensures text in TextsOf(NextPlaces(place, q), q, rest) <==>
      exists p :: Hop(place, q, p) && ReachableWithin(p, q, rest, text)
  {
    var next := NextPlaces(place, q);
    TextsOfIsUnion(next, q, rest, text);
    if p :| p in next && text in Texts(p, q, rest) {
      NextPlacesAreHops(place, q, p);
    }
    if p :| Hop(place, q, p) && ReachableWithin(p, q, rest, text) {
      NextPlacesAreHops(place, q, p);
    }
  }

  lemma OwnTextsAreOffered(place: Place, q: Query, text: string)
    ensures text in OwnTexts(place, q.textPaths) <==> Reachable(place, q, 0, text)
  {
    TextsAtAreOffered(place.value, q.textPaths, text);
  }

  lemma ReachableStep(place: Place, q: Query, hops: nat, text: string)
    requires hops > 0
    ensures ReachableWithin(place, q, hops, text) <==>
      || Reachable(place, q, 0, text)
      || exists p :: Hop(place, q, p) && ReachableWithin(p, q, hops - 1, text)
  {
    if p :| Hop(place, q, p) && ReachableWithin(p, q, hops - 1, text) {
      var n: nat :| n <= hops - 1 && Reachable(p, q, n, text);
      assert Reachable(place, q, n + 1, text);
    }
    if n: nat :| n <= hops && Reachable(place, q, n, text) {
      if n > 0 {
        var p :| Hop(place, q, p) && Reachable(p, q, n - 1, text);
        assert ReachableWithin(p, q, hops - 1, text);
      }
    }
  }

  /** The search returns the first wanted text in depth-first order. */
  lemma SearchFindsTheFirst(value: Json, q: Query, includeCurrent: bool)
    ensures FindRequirementText(value, q, includeCurrent) ==
      First(Texts(Place(value, includeCurrent), q, 3), q.wanted)
  {
    DepthFindsFirst(value, q, includeCurrent, 0);
  }

  /** The search finds a text if and only if a wanted one is reachable within three hops, and what
      it finds is such a text. */
  lemma SearchIsReachability(value: Json, q: Query, includeCurrent: bool)
    ensures var found := FindRequirementText(value, q, includeCurrent);
      var start := Place(value, includeCurrent);
      && (found.Some? <==> exists text :: ReachableWithin(start, q, 3, text) && q.wanted(text))
      && (found.Some? ==> q.wanted(found.value) && ReachableWithin(start, q, 3, found.value))
  {
    var start := Place(value, includeCurrent);
    SearchFindsTheFirst(value, q, includeCurrent);
    FirstProperties(Texts(start, q, 3), q.wanted);
    forall text {
      TextsAreReachable(start, q, 3, text);
    }
  }
}
