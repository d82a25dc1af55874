/** src/screens/ActivityScreen.js: the notification list, split into sections by
    position, and where a tap on a notification leads. */
module ActivityScreen {
  import opened Base
  import opened JsText

  datatype Notification = Notification(kind: string, actorId: Option<int>, postId: Option<int>)

  datatype Section = Section(title: string, data: seq<Notification>)

  /** JavaScript `items.slice(from, to)`: the bounds are clamped to the list. */
  function Slice(items: seq<Notification>, from: nat, to: nat): (r: seq<Notification>)
    ensures |r| <= to - from || to < from
    ensures from <= |items| && from <= to ==> r == items[from..Min(to, |items|)]
    ensures from > |items| || to <= from ==> r == []
  {
    if from < to && from <= |items| then items[from..Min(to, |items|)] else []
  }

  /** The sections with no item are dropped, keeping the others in order. */
  function NonEmpty(sections: seq<Section>): (r: seq<Section>)
    ensures |r| <= |sections|
    ensures forall s :: s in r <==> s in sections && s.data != []
  {
    if sections == [] then []
    else if sections[0].data == [] then NonEmpty(sections[1..])
    else [sections[0]] + NonEmpty(sections[1..])
  }

  /** The grouping of `fetchNotifications`: items 0-1 are New, 2-4 Today and the
      rest This Week. */
  function Grouped(items: seq<Notification>): (r: seq<Section>)
    ensures |r| <= 3
    ensures forall s :: s in r ==> s.data != []
    ensures forall s :: s in r && s.title == "New" ==> |s.data| <= 2
    ensures forall s :: s in r && s.title == "Today" ==> |s.data| <= 3
    ensures forall s :: s in r && s.title == "New" ==> s.data == items[..Min(2, |items|)]
    ensures forall s :: s in r && s.title == "Today" ==> |items| > 2 && s.data == items[2..Min(5, |items|)]
    ensures forall s :: s in r && s.title == "This Week" ==> |items| > 5 && s.data == items[5..]
    ensures items != [] ==> r != [] && r[0] == Section("New", items[..Min(2, |items|)])
  {
    NonEmpty(AllSections(items))
  }

  /** The section as a one-element list, or nothing when it has no item. */
  function Kept(s: Section): seq<Section> {
    if s.data == [] then [] else [s]
  }

  lemma NonEmptyThree(a: Section, b: Section, c: Section)
    ensures NonEmpty([a, b, c]) == Kept(a) + Kept(b) + Kept(c)
  {
    assert [a, b, c][1..] == [b, c] && [b, c][1..] == [c] && [c][1..] == [];
    assert NonEmpty([c]) == Kept(c);
    assert NonEmpty([b, c]) == Kept(b) + Kept(c);
  }

  /** The sections exactly: New whenever there is an item, then Today iff there
      are more than 2, then This Week iff there are more than 5, in that order. */
  lemma GroupedShape(items: seq<Notification>)
    ensures Grouped(items) ==
      (if items == [] then [] else [Section("New", items[..Min(2, |items|)])])
      + (if |items| > 2 then [Section("Today", items[2..Min(5, |items|)])] else [])
      + (if |items| > 5 then [Section("This Week", items[5..])] else [])
  {
    var sections := AllSections(items);
    NonEmptyThree(sections[0], sections[1], sections[2]);
    assert sections == [sections[0], sections[1], sections[2]];
    assert Kept(sections[0]) == (if items == [] then [] else [Section("New", items[..Min(2, |items|)])]);
    assert Kept(sections[1]) == (if |items| > 2 then [Section("Today", items[2..Min(5, |items|)])] else []);
    assert Kept(sections[2]) == (if |items| > 5 then [Section("This Week", items[5..])] else []);
  }

  /** All the items of the sections, in section order. */
  function Flatten(sections: seq<Section>): seq<Notification> {
    if sections == [] then [] else sections[0].data + Flatten(sections[1..])
  }

  lemma {:induction false} FlattenSkipsEmpty(sections: seq<Section>)
    ensures Flatten(NonEmpty(sections)) == Flatten(sections)
  {
    if sections != [] {
      FlattenSkipsEmpty(sections[1..]);
      if sections[0].data != [] {
        assert ([sections[0]] + NonEmpty(sections[1..]))[1..] == NonEmpty(sections[1..]);
      }
    }
  }

  /** The three sections before the empty ones are dropped. */
  function AllSections(items: seq<Notification>): seq<Section> {
    [Section("New", Slice(items, 0, 2)),
     Section("Today", Slice(items, 2, 5)),
     Section("This Week", if |items| >= 5 then items[5..] else [])]
  }

  lemma FlattenThree(a: Section, b: Section, c: Section)
    ensures Flatten([a, b, c]) == a.data + b.data + c.data
  {
    assert [a, b, c][1..] == [b, c] && [b, c][1..] == [c] && [c][1..] == [];
    assert Flatten([c]) == c.data + [] == c.data;
    assert Flatten([b, c]) == b.data + c.data;
  }

  lemma SlicesCover(items: seq<Notification>)
    ensures Slice(items, 0, 2) + Slice(items, 2, 5) + (if |items| >= 5 then items[5..] else []) == items
  {
    if |items| <= 2 {
      assert Slice(items, 0, 2) == items;
    } else if |items| <= 5 {
      assert items == items[..2] + items[2..];
    } else {
      assert items == items[..2] + items[2..5] + items[5..];
    }
  }

  /** Reading the sections top to bottom gives back every notification, in order. */
  lemma GroupingLosesNothing(items: seq<Notification>)
    ensures Flatten(Grouped(items)) == items
  {
    var sections := AllSections(items);
    assert Grouped(items) == NonEmpty(sections);
    FlattenSkipsEmpty(sections);
    FlattenThree(sections[0], sections[1], sections[2]);
    SlicesCover(items);
  }

  /** Where a tap leads. */
  datatype Route = ToPublicProfile(userId: Option<int>) | ToSinglePost(postId: int) | Stay

  /** `handleItemPress`. */
  function Destination(n: Notification): (r: Route)
    ensures n.kind == "follow" ==> r == ToPublicProfile(n.actorId)
    ensures n.kind != "follow" && (n.kind == "like" || n.kind == "comment") && Truthy(n.postId)
            ==> r == ToSinglePost(n.postId.value)
    ensures r.ToSinglePost? ==> (n.kind == "like" || n.kind == "comment") && Truthy(n.postId)
    ensures r.ToPublicProfile? ==> n.kind == "follow" || Truthy(n.actorId)
    ensures r == Stay <==> n.kind != "follow" && !((n.kind == "like" || n.kind == "comment") && Truthy(n.postId))
                             && !Truthy(n.actorId)
  {
    if n.kind == "follow" then ToPublicProfile(n.actorId)
    else if (n.kind == "like" || n.kind == "comment") && Truthy(n.postId) then ToSinglePost(n.postId.value)
    else if Truthy(n.actorId) then ToPublicProfile(n.actorId)
    else Stay
  }
}
