/**
 * One placed function in the builder (src/components/builder-function-item.tsx):
 * an input slot per argument token of the formula's signature, with a label,
 * a required/optional hint and a highlight for the slot the grid writes into.
 */
module BuilderItem {
  import opened Wrappers
  import opened Strings
  import opened Records
  import opened ArgumentParser
  import opened ArgMap

  /** The slot the sample grid currently writes into (`activeArgument`). */
  datatype ActiveSlot = ActiveSlot(functionId: string, argName: string)

  /** What one argument slot shows. */
  datatype SlotView = SlotView(name: string, caption: string, placeholder: string, value: Option<string>, active: bool)

  /** `argName.replace(/[\[\]]/g, '')`: the token without its brackets. */
  function SlotLabel(name: string): (text: string)
    ensures '[' !in text && ']' !in text
    ensures forall c :: c in name && c != '[' && c != ']' ==> c in text
    ensures forall c :: c in text ==> c in name
  {
    RemoveAll(name, {'[', ']'})
  }

  /** A bracketed token is labelled by what is inside the brackets. */
  lemma OptionalSlotLabel(name: string)
    requires '[' !in name && ']' !in name
    ensures SlotLabel("[" + name + "]") == name
    ensures SlotLabel(name) == name
  {
    RemoveAllAppend("[" + name, "]", {'[', ']'});
    RemoveAllAppend("[", name, {'[', ']'});
    RemoveAllAbsent(name, {'[', ']'});
  }

  /** `argName.startsWith('[') ? 'optional' : 'required'`. */
  function Placeholder(name: string): (p: string)
    ensures p == "optional" <==> |name| > 0 && name[0] == '['
    ensures p == "optional" || p == "required"
  {
    if StartsWith(name, "[") then "optional" else "required"
  }

  /** A slot is highlighted iff the active slot names this function and this argument. */
  function IsActiveSlot(active: Option<ActiveSlot>, id: string, argName: string): (r: bool)
    ensures r <==> active == Some(ActiveSlot(id, argName))
  {
    active.Some? && active.value.functionId == id && active.value.argName == argName
  }

  /** The slots of a placed function, one per argument token of its signature, in order. */
  function Slots(id: string, f: Formula, args: Args, active: Option<ActiveSlot>): (r: seq<SlotView>)
    ensures var names := ParseArguments(f.syntax);
      |r| == |names| &&
      forall k :: 0 <= k < |r| ==>
        r[k] == SlotView(names[k], SlotLabel(names[k]), Placeholder(names[k]),
                         Lookup(args, names[k]), IsActiveSlot(active, id, names[k]))
  {
    var names := ParseArguments(f.syntax);
    seq(|names|, k requires 0 <= k < |names| =>
      SlotView(names[k], SlotLabel(names[k]), Placeholder(names[k]),
               Lookup(args, names[k]), IsActiveSlot(active, id, names[k])))
  }

  /** At most one slot of a function is highlighted, unless the signature repeats a token. */
  lemma AtMostOneActive(id: string, f: Formula, args: Args, active: Option<ActiveSlot>, i: nat, j: nat)
    requires var r := Slots(id, f, args, active); i < |r| && j < |r| && r[i].active && r[j].active
    ensures ParseArguments(f.syntax)[i] == ParseArguments(f.syntax)[j]
  {
  }

  /** The documented optional argument is hinted optional, a plain one required. */
  lemma PlaceholderExample()
    ensures Placeholder("[if_not_found]") == "optional"
    ensures Placeholder("lookup_value") == "required"
  {
  }
}
