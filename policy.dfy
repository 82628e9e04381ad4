/** Route-policy resolution shared by both middlewares. */
module Policy {
  import opened Wrappers

  /** The route keys tried, in order: "METHOD PATH", then PATH, then METHOD. */
  function Candidates(verb: string, path: string): seq<string> {
    [verb + " " + path, path, verb]
  }

  /** The route key that matched and its tier list. */
  datatype Match = Match(route: string, tiers: seq<int>)

  /** The first candidate present in the policy table wins; none present, no policy. */
  function Lookup(table: map<string, seq<int>>, verb: string, path: string): (m: Option<Match>)
    ensures m.None? <==> forall j :: 0 <= j < 3 ==> Candidates(verb, path)[j] !in table
    ensures m.Some? ==> m.value.route in table && m.value.tiers == table[m.value.route]
    ensures m.Some? ==>
              exists j :: 0 <= j < 3 && m.value.route == Candidates(verb, path)[j] &&
                forall i :: 0 <= i < j ==> Candidates(verb, path)[i] !in table
    ensures forall j :: 0 <= j < 3 && Candidates(verb, path)[j] in table &&
                        (forall i :: 0 <= i < j ==> Candidates(verb, path)[i] !in table) ==>
              m == Some(Match(Candidates(verb, path)[j], table[Candidates(verb, path)[j]]))
  {
    var c := Candidates(verb, path);
    if c[0] in table then Some(Match(c[0], table[c[0]]))
    else if c[1] in table then Some(Match(c[1], table[c[1]]))
    else if c[2] in table then Some(Match(c[2], table[c[2]]))
    else None
  }
}
