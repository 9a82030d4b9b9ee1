/**
 * A DMX universe: its number, name and input source, and the add/remove
 * operations on the list of universes.
 */
module Universe {
  import opened Wrappers

  /** Where a universe's DMX buffer comes from. */
  datatype Input = BlenderDmx | ArtNet | Sacn

  /** The enum identifiers Blender stores for the input. */
  function InputId(i: Input): string {
    match i
    case BlenderDmx => "BLENDERDMX"
    case ArtNet => "ARTNET"
    case Sacn => "sACN"
  }

  /** The input an enum identifier stands for; unknown identifiers have none. */
  function ParseInput(s: string): (r: Option<Input>)
    ensures r.Some? ==> InputId(r.value) == s
  {
    if s == "BLENDERDMX" then Some(BlenderDmx)
    else if s == "ARTNET" then Some(ArtNet)
    else if s == "sACN" then Some(Sacn)
    else None
  }

  /** Every input round-trips through its identifier, so the identifiers are
      distinct. */
  lemma ParseInputId(i: Input)
    ensures ParseInput(InputId(i)) == Some(i)
  {
  }

  datatype Universe = Universe(id: int, name: string, input: Input, inputSettings: string)

  /** A freshly added universe before `add` sets its number and name. */
  const Default := Universe(0, "Universe 0", BlenderDmx, "Input Settings")

  /** `add`: append a universe with the given number and name and the default
      input, and return it. */
  function Add(universes: seq<Universe>, id: int, name: string): (r: (seq<Universe>, Universe))
    ensures |r.0| == |universes| + 1 && r.0[..|universes|] == universes
    ensures r.0[|universes|] == r.1
    ensures r.1.id == id && r.1.name == name
    ensures r.1.input == BlenderDmx && r.1.inputSettings == "Input Settings"
  {
    var u := Default.(id := id, name := name);
    (universes + [u], u)
  }

  /** `remove`: drop the universe at index `i` when `i` is a valid index,
      keeping the others in order; any other index changes nothing. */
  function Remove(universes: seq<Universe>, i: int): (r: seq<Universe>)
    ensures !(0 <= i < |universes|) ==> r == universes
    ensures 0 <= i < |universes| ==>
      && |r| == |universes| - 1
      && (forall j :: 0 <= j < i ==> r[j] == universes[j])
      && (forall j :: i <= j < |r| ==> r[j] == universes[j + 1])
    ensures 0 <= i < |universes| ==> multiset(r) + multiset{universes[i]} == multiset(universes)
  {
    if 0 <= i < |universes| then
      assert universes == universes[..i] + [universes[i]] + universes[i + 1..];
      universes[..i] + universes[i + 1..]
    else universes
  }

  /** Removing the universe just added restores the list. */
  lemma AddThenRemove(universes: seq<Universe>, id: int, name: string)
    ensures Remove(Add(universes, id, name).0, |universes|) == universes
  {
    var added := Add(universes, id, name).0;
    assert added[..|universes|] == universes;
  }
}
