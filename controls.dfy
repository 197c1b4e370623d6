/** The keys the game tracks and the decision the interact key makes. */
module Controls {
  import opened Wrappers

  datatype Key = A | D | E | Shift

  /** The (lower-cased) name the browser gives each tracked key. */
  function KeyName(k: Key): string
  {
    match k
    case A => "a"
    case D => "d"
    case E => "e"
    case Shift => "shift"
  }

  /** Whether a key name is one of the tracked keys, and which. */
  function TrackedKey(name: string): (k: Option<Key>)
    ensures k.Some? ==> KeyName(k.value) == name
    ensures k.None? ==> forall j: Key :: KeyName(j) != name
  {
    if name == "a" then Some(A)
    else if name == "d" then Some(D)
    else if name == "e" then Some(E)
    else if name == "shift" then Some(Shift)
    else None
  }

  /** Every tracked key is recognised by its own name. */
  lemma TrackedKeyName(k: Key)
    ensures TrackedKey(KeyName(k)) == Some(k)
  {
  }

  /** The key table of a fresh game: every tracked key, none pressed. */
  function NoKeys(): (keys: map<Key, bool>)
    ensures forall k: Key :: k in keys && !keys[k]
  {
    var keys := map[A := false, D := false, E := false, Shift := false];
    assert forall k: Key :: k in keys && !keys[k] by {
      forall k: Key ensures k in keys && !keys[k] {
        if k.A? {} else if k.D? {} else if k.E? {} else {}
      }
    }
    keys
  }

  /** Some tracked key other than the interact key is held. */
  predicate MovementHeld(keys: map<Key, bool>)
  {
    exists k :: k in keys && k != E && keys[k]
  }

  /** What a key press does to the dialogue. */
  datatype Interact = Begin | Continue | Ignore

  /**
   * The interact key starts a dialogue exactly when an NPC is in reach and
   * no dialogue is open; it advances the dialogue exactly when one is open;
   * every other key press, and the interact key in every other case, does
   * nothing to the dialogue.
   */
  function InteractAction(key: string, npcInReach: bool, dialogueActive: bool): (act: Interact)
    ensures act == Begin <==> key == "e" && npcInReach && !dialogueActive
    ensures act == Continue <==> key == "e" && dialogueActive
    ensures act == Ignore <==> key != "e" || (!npcInReach && !dialogueActive)
  {
    if key == "e" && npcInReach && !dialogueActive then Begin
    else if key == "e" && dialogueActive then Continue
    else Ignore
  }
}
