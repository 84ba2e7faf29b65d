/** Choosing a corridor by its countries and a rail by its name: the first match in the list. */
module Selection {
  import opened Wrappers
  import opened Model

  /** The position of the first element satisfying `p`, or `None` if none does. */
  function FirstIndex<T>(s: seq<T>, p: T -> bool): (r: Option<nat>)
    ensures r.Some? ==> r.value < |s| && p(s[r.value])
    ensures r.Some? ==> forall j :: 0 <= j < r.value ==> !p(s[j])
    ensures r.None? <==> forall j :: 0 <= j < |s| ==> !p(s[j])
  {
    if |s| == 0 then None
    else if p(s[0]) then Some(0)
    else
      match FirstIndex(s[1..], p)
      case None => None
      case Some(i) => Some(i + 1)
  }

  /** When exactly one element satisfies `p`, the first match is that element. */
  lemma FirstIndexOfOnly<T>(s: seq<T>, p: T -> bool, i: nat)
    requires i < |s| && p(s[i])
    requires forall j :: 0 <= j < |s| && j != i ==> !p(s[j])
    ensures FirstIndex(s, p) == Some(i)
  {
  }

  /** The first corridor from country `src` to country `dst`, if any. */
  function FindCorridor(corridors: seq<Corridor>, src: string, dst: string): (r: Option<Corridor>)
    ensures r.Some? ==> r.value in corridors && r.value.src == src && r.value.dst == dst
    ensures r.Some? ==> exists i :: (0 <= i < |corridors| && corridors[i] == r.value
      && forall j :: 0 <= j < i ==> !(corridors[j].src == src && corridors[j].dst == dst))
    ensures r.None? <==> forall c :: c in corridors ==> !(c.src == src && c.dst == dst)
  {
    match FirstIndex(corridors, (c: Corridor) => c.src == src && c.dst == dst)
    case None => None
    case Some(i) => Some(corridors[i])
  }

  /** The first rail called `name`, if any. */
  function FindRail(rails: seq<Rail>, name: string): (r: Option<Rail>)
    ensures r.Some? ==> r.value in rails && r.value.name == name
    ensures r.Some? ==> exists i :: (0 <= i < |rails| && rails[i] == r.value
      && forall j :: 0 <= j < i ==> rails[j].name != name)
    ensures r.None? <==> forall rail :: rail in rails ==> rail.name != name
  {
    match FirstIndex(rails, (rail: Rail) => rail.name == name)
    case None => None
    case Some(i) => Some(rails[i])
  }
}
