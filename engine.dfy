/**
 * The game object: the mutable state of one running game and the steps
 * that change it (the per-tick update and the two key handlers).
 */
module Engine {
  import opened Wrappers
  import opened Content
  import opened Controls
  import opened Dialogue
  import Motion
  import Proximity
  import Animation

  /** Every field of the game that the steps below read or write. */
  datatype GameState = GameState(
    player: Player, npcs: seq<Npc>, keys: map<Key, bool>, cameraX: real,
    activeNpc: Option<nat>, showInteractionPrompt: bool,
    dialogueActive: bool, currentDialogue: Option<Session>,
    currentFrame: nat, lastFrameTime: real)

  /** The session is open on an NPC of the list, at a position of that NPC's script. */
  predicate SessionIn(scripts: NpcType -> Script, npcs: seq<Npc>, s: Session)
  {
    s.npc < |npcs| && Shows(s, scripts(npcs[s.npc].kind))
  }

  /**
   * The script of the NPC a session is open on. With no session open the
   * script is never read, and the villager's stands in.
   */
  function ScriptIn(scripts: NpcType -> Script, npcs: seq<Npc>, d: Option<Session>): Script
  {
    if d.Some? && d.value.npc < |npcs| then scripts(npcs[d.value.npc].kind) else scripts(Villager)
  }

  /** The key is one of the tracked keys other than the interact key. */
  predicate IsMovementKey(key: string)
  {
    TrackedKey(key).Some? && TrackedKey(key).value != E
  }

  /**
   * Releasing a movement key: some movement key is still held exactly when
   * one of the other movement keys was held before.
   */
  lemma ReleasedKeyLeavesOthers(keys: map<Key, bool>, k: Key)
    requires (forall j: Key :: j in keys) && k != E
    ensures MovementHeld(keys[k := false]) <==> exists j :: j in keys && j != E && j != k && keys[j]
  {
    var after := keys[k := false];
    if MovementHeld(after) {
      var j :| j in after && j != E && after[j];
      assert j in keys && j != E && j != k && keys[j];
    }
    if exists j :: j in keys && j != E && j != k && keys[j] {
      var j :| j in keys && j != E && j != k && keys[j];
      assert j in after && j != E && after[j];
    }
  }

  class Game {
    /** Width of the canvas, which the host sets to the window's width. */
    const viewWidth: int
    /** The greeting and follow-up lines of every NPC type. */
    const npcDialogues: NpcType -> Script
    var player: Player
    var npcs: seq<Npc>
    var keys: map<Key, bool>
    var cameraX: real
    var activeNpc: Option<nat>
    var showInteractionPrompt: bool
    var dialogueActive: bool
    var currentDialogue: Option<Session>
    var currentFrame: nat
    var lastFrameTime: real

    ghost function Model(): GameState
      reads this
    {
      GameState(player, npcs, keys, cameraX, activeNpc, showInteractionPrompt,
                dialogueActive, currentDialogue, currentFrame, lastFrameTime)
    }

    /**
     * The game's invariant: all tracked keys present; the player on the
     * map; the camera not left of the map; every frame index within the
     * longest clip; the active NPC one of the town's NPCs and the prompt
     * shown exactly when there is one; a dialogue open exactly when the
     * dialogue flag is set, and then at a valid position of its script.
     */
    ghost predicate Valid()
      reads this
    {
      && (forall k: Key :: k in keys)
      && 0 <= player.x <= Motion.MaxX(MapWidth, player.width)
      && 0.0 <= cameraX
      && currentFrame < MaxClipFrames
      && (forall i :: 0 <= i < |npcs| ==> npcs[i].frame < NpcFrames)
      && (activeNpc.Some? ==> activeNpc.value < |npcs|)
      && showInteractionPrompt == activeNpc.Some?
      && dialogueActive == currentDialogue.Some?
      && (currentDialogue.Some? ==> SessionIn(npcDialogues, npcs, currentDialogue.value))
    }

    /** A started game in a window `innerWidth` by `innerHeight`. */
    constructor (innerWidth: int, innerHeight: int)
      ensures Valid()
      ensures viewWidth == innerWidth && npcDialogues == ScriptOf
      ensures Model() == GameState(
        InitPlayer(innerHeight - GroundHeight), InitNpcs(innerHeight - GroundHeight), NoKeys(),
        0.0, None, false, false, None, 0, 0.0)
    {
      var groundY := innerHeight - GroundHeight;
      viewWidth := innerWidth;
      npcDialogues := ScriptOf;
      player := InitPlayer(groundY);
      npcs := InitNpcs(groundY);
      keys := NoKeys();
      cameraX := 0.0;
      activeNpc := None;
      showInteractionPrompt := false;
      dialogueActive := false;
      currentDialogue := None;
      currentFrame := 0;
      lastFrameTime := 0.0;
    }

    /**
     * Movement: `a` moves left and `d` moves right by the current speed
     * (both together cancel out and leave the player facing right), the
     * state follows the movement flags, and x is clamped to the map.
     */
    method UpdatePlayerPosition()
      requires Valid()
      modifies this
      ensures Valid()
      ensures Model() == old(Model()).(player := player)
      ensures var v := Motion.CurrentSpeed(old(player));
        player.x == Motion.ClampX(old(player.x) - (if keys[A] then v else 0) + (if keys[D] then v else 0),
                                  MapWidth, player.width)
      ensures player.direction == (if keys[D] then Right else if keys[A] then Left else old(player.direction))
      ensures player.state == Motion.StateFor(player.isMoving, player.isRunning)
      ensures player == old(player).(x := player.x, direction := player.direction, state := player.state)
    {
      var currentSpeed := Motion.CurrentSpeed(player);
      var x, direction := player.x, player.direction;
      if keys[A] {
        x, direction := x - currentSpeed, Left;
      }
      if keys[D] {
        x, direction := x + currentSpeed, Right;
      }
      var state := Motion.StateFor(player.isMoving, player.isRunning);
      player := player.(x := Motion.ClampX(x, MapWidth, player.width), direction := direction, state := state);
    }

    /** The camera is centred on the player and clamped to the map. */
    method UpdateCamera()
      requires Valid()
      modifies this
      ensures Valid()
      ensures Model() == old(Model()).(cameraX := cameraX)
      ensures cameraX == Motion.CameraX(player.x, viewWidth, MapWidth)
    {
      cameraX := Motion.CameraX(player.x, viewWidth, MapWidth);
    }

    /**
     * The NPC in reach becomes the active NPC (none when none is in reach)
     * and the prompt is shown exactly when there is one. An open dialogue
     * is left open even when its NPC is out of reach.
     */
    method CheckNpcInteraction()
      requires Valid()
      modifies this
      ensures Valid()
      ensures Model() == old(Model()).(activeNpc := activeNpc, showInteractionPrompt := showInteractionPrompt)
      ensures Proximity.IsNearest(player, npcs, InteractionRadius, activeNpc)
      ensures showInteractionPrompt == activeNpc.Some?
    {
      var nearest := Proximity.FindNearest(player, npcs, InteractionRadius);
      activeNpc := nearest;
      showInteractionPrompt := nearest.Some?;
    }

    /** Opening a dialogue with an NPC shows its greeting at index -1. */
    method StartDialogue(npc: nat)
      requires Valid() && npc < |npcs|
      modifies this
      ensures Valid()
      ensures Model() == old(Model()).(dialogueActive := true, currentDialogue := currentDialogue)
      ensures dialogueActive
      ensures currentDialogue == Some(Open(npc, npcDialogues(npcs[npc].kind)))
    {
      dialogueActive := true;
      currentDialogue := Some(Session(npc, npcDialogues(npcs[npc].kind).greeting, -1));
    }

    /**
     * The next line of the open dialogue, or its end once the lines are
     * used up; nothing when no dialogue is open.
     */
    method AdvanceDialogue()
      requires Valid()
      modifies this
      ensures Valid()
      ensures Model() == old(Model()).(dialogueActive := dialogueActive, currentDialogue := currentDialogue)
      ensures currentDialogue == Advance(old(currentDialogue), ScriptIn(npcDialogues, npcs, old(currentDialogue)))
      ensures dialogueActive == currentDialogue.Some?
      ensures old(currentDialogue).None? ==> Model() == old(Model())
    {
      if currentDialogue.None? {
        return;
      }
      var d := currentDialogue.value;
      var index := d.index + 1;
      var conversations := npcDialogues(npcs[d.npc].kind).conversations;
      if index >= |conversations| {
        dialogueActive := false;
        currentDialogue := None;
      } else {
        currentDialogue := Some(d.(index := index, text := conversations[index]));
      }
    }

    /**
     * A key goes down: a tracked key is marked pressed, any tracked key but
     * `e` sets the moving flag, `shift` sets the running flag; then `e`
     * opens a dialogue with the active NPC, or advances the open one.
     */
    method KeyDown(key: string)
      requires Valid()
      modifies this
      ensures Valid()
      ensures Model() == old(Model()).(keys := keys, player := player,
                                       dialogueActive := dialogueActive, currentDialogue := currentDialogue)
      ensures keys == (if TrackedKey(key).Some? then old(keys)[TrackedKey(key).value := true] else old(keys))
      ensures player.isMoving == (old(player.isMoving) || IsMovementKey(key))
      ensures player.isRunning == (old(player.isRunning) || TrackedKey(key) == Some(Shift))
      ensures player == old(player).(isMoving := player.isMoving, isRunning := player.isRunning)
      ensures match InteractAction(key, old(activeNpc).Some?, old(dialogueActive))
        case Begin => dialogueActive && currentDialogue == Some(Open(old(activeNpc).value, npcDialogues(npcs[old(activeNpc).value].kind)))
        case Continue => currentDialogue == Advance(old(currentDialogue), ScriptIn(npcDialogues, npcs, old(currentDialogue)))
        case Ignore => dialogueActive == old(dialogueActive) && currentDialogue == old(currentDialogue)
    {
      var k := TrackedKey(key);
      if k.Some? {
        keys := keys[k.value := true];
        var isMoving, isRunning := player.isMoving, player.isRunning;
        if k.value != E {
          isMoving := true;
        }
        if k.value == Shift {
          isRunning := true;
        }
        player := player.(isMoving := isMoving, isRunning := isRunning);
      }
      assert Valid();
      if key == "e" && activeNpc.Some? && !dialogueActive {
        StartDialogue(activeNpc.value);
      } else if key == "e" && dialogueActive {
        AdvanceDialogue();
      }
    }

    /**
     * A key comes up: a tracked key is marked released; releasing any but
     * `e` leaves the moving flag set exactly when another tracked key other
     * than `e` is still pressed; releasing `shift` clears the running flag.
     */
    method KeyUp(key: string)
      requires Valid()
      modifies this
      ensures Valid()
      ensures Model() == old(Model()).(keys := keys, player := player)
      ensures keys == (if TrackedKey(key).Some? then old(keys)[TrackedKey(key).value := false] else old(keys))
      ensures IsMovementKey(key) ==>
        (player.isMoving <==> exists j :: j in old(keys) && j != E && j != TrackedKey(key).value && old(keys)[j])
      ensures !IsMovementKey(key) ==> player.isMoving == old(player.isMoving)
      ensures player.isRunning == (old(player.isRunning) && TrackedKey(key) != Some(Shift))
      ensures player == old(player).(isMoving := player.isMoving, isRunning := player.isRunning)
    {
      var k := TrackedKey(key);
      if k.Some? {
        var isMoving, isRunning := player.isMoving, player.isRunning;
        if k.value != E {
          ReleasedKeyLeavesOthers(keys, k.value);
          isMoving := MovementHeld(keys[k.value := false]);
        }
        if k.value == Shift {
          isRunning := false;
        }
        keys := keys[k.value := false];
        player := player.(isMoving := isMoving, isRunning := isRunning);
      }
    }

    /**
     * The frame block of the tick: when strictly more than the animation
     * interval has passed, the player's frame and every NPC's frame move one
     * on (wrapping within the player's clip and within the NPC's four
     * frames) and the time is recorded; otherwise nothing changes.
     */
    method AdvanceAnimation(timestamp: real)
      requires Valid()
      modifies this
      ensures Valid()
      ensures Model() == old(Model()).(npcs := npcs, currentFrame := currentFrame, lastFrameTime := lastFrameTime)
      ensures if Animation.FrameDue(timestamp, old(lastFrameTime), AnimationSpeed) then
          && currentFrame == Animation.NextFrame(old(currentFrame), ClipOf(player.state).frames)
          && lastFrameTime == timestamp
          && |npcs| == |old(npcs)|
          && (forall j :: 0 <= j < |npcs| ==>
                npcs[j] == old(npcs[j]).(frame := Animation.NextFrame(old(npcs[j]).frame, NpcFrames)))
        else Model() == old(Model())
    {
      if timestamp - lastFrameTime > AnimationSpeed {
        var animation := ClipOf(player.state);
        currentFrame := (currentFrame + 1) % animation.frames;
        assert currentFrame == Animation.NextFrame(old(currentFrame), animation.frames) < MaxClipFrames;
        var i := 0;
        while i < |npcs|
          invariant 0 <= i <= |npcs| == |old(npcs)|
          invariant forall j :: 0 <= j < i ==> npcs[j] == old(npcs[j]).(frame := (old(npcs[j]).frame + 1) % NpcFrames)
          invariant forall j :: i <= j < |npcs| ==> npcs[j] == old(npcs[j])
          invariant Model() == old(Model()).(npcs := npcs, currentFrame := currentFrame)
          invariant currentFrame == Animation.NextFrame(old(currentFrame), animation.frames)
        {
          npcs := npcs[i := npcs[i].(frame := (npcs[i].frame + 1) % NpcFrames)];
          i := i + 1;
        }
        assert forall j :: 0 <= j < |npcs| ==> npcs[j].kind == old(npcs[j]).kind;
        lastFrameTime := timestamp;
      }
    }

    /**
     * One tick of the game: move the player, follow with the camera, find
     * the NPC in reach, then advance the animation clock. The keys and the
     * dialogue are not touched by a tick, nor are the NPCs' positions.
     */
    method Update(timestamp: real)
      requires Valid()
      modifies this
      ensures Valid()
      ensures Model() == old(Model()).(player := player, cameraX := cameraX, activeNpc := activeNpc,
                                       showInteractionPrompt := showInteractionPrompt, npcs := npcs,
                                       currentFrame := currentFrame, lastFrameTime := lastFrameTime)
      ensures var v := Motion.CurrentSpeed(old(player));
        player == old(player).(
          x := Motion.ClampX(old(player.x) - (if old(keys)[A] then v else 0) + (if old(keys)[D] then v else 0),
                             MapWidth, old(player.width)),
          direction := if old(keys)[D] then Right else if old(keys)[A] then Left else old(player.direction),
          state := Motion.StateFor(old(player.isMoving), old(player.isRunning)))
      ensures if Animation.FrameDue(timestamp, old(lastFrameTime), AnimationSpeed) then
          && currentFrame == Animation.NextFrame(old(currentFrame), ClipOf(player.state).frames)
          && lastFrameTime == timestamp
          && |npcs| == |old(npcs)|
          && (forall j :: 0 <= j < |npcs| ==>
                npcs[j] == old(npcs[j]).(frame := Animation.NextFrame(old(npcs[j]).frame, NpcFrames)))
        else currentFrame == old(currentFrame) && lastFrameTime == old(lastFrameTime) && npcs == old(npcs)
      ensures player.state == Motion.StateFor(player.isMoving, player.isRunning)
      ensures cameraX == Motion.CameraX(player.x, viewWidth, MapWidth)
      ensures Proximity.IsNearest(player, npcs, InteractionRadius, activeNpc)
      ensures keys == old(keys)
      ensures dialogueActive == old(dialogueActive) && currentDialogue == old(currentDialogue)
    {
      UpdatePlayerPosition();
      UpdateCamera();
      CheckNpcInteraction();
      ghost var found := npcs;
      AdvanceAnimation(timestamp);
      forall i | 0 <= i < |npcs|
        ensures Proximity.Dist4(player, npcs[i]) == Proximity.Dist4(player, found[i])
      {
        assert npcs[i].x == found[i].x && npcs[i].y == found[i].y;
      }
    }
  }
}
