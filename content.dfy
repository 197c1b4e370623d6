/**
 * The fixed data of the town: the entities the game keeps (player, NPCs),
 * the animation table, the NPC dialogue scripts and the world constants.
 */
module Content {

  datatype Direction = Left | Right

  /** The animation states of the player: exactly the keys of the animation table. */
  datatype AnimState = Idle | Walk | Run

  /** One entry of the animation table: how many frames the clip has, and its sprite row. */
  datatype Clip = Clip(frames: nat, row: nat)

  datatype NpcType = Villager | Lord | Ronin

  /** A dialogue script: the greeting and the ordered follow-up lines. */
  datatype Script = Script(greeting: string, conversations: seq<string>)

  datatype Npc = Npc(kind: NpcType, x: int, y: int, width: int, height: int,
                     frame: nat, direction: Direction)

  datatype Player = Player(x: int, y: int, width: int, height: int,
                           speed: int, runSpeed: int,
                           state: AnimState, direction: Direction,
                           isMoving: bool, isRunning: bool)

  /** Width of the walkable map, in pixels. */
  const MapWidth: int := 2000
  /** Height of the ground strip at the bottom of the window. */
  const GroundHeight: int := 100
  /** An NPC is in reach when its centre is strictly closer than this. */
  const InteractionRadius: nat := 50
  /** Milliseconds that must strictly elapse between two animation frames. */
  const AnimationSpeed: real := 100.0
  /** Every NPC sprite sheet has this many walk frames. */
  const NpcFrames: nat := 4
  /** The longest clip of the animation table. */
  const MaxClipFrames: nat := 8
  /** Size of one frame of the player's sprite sheet; the player is drawn at twice this. */
  const SpriteFrameWidth: int := 48
  const SpriteFrameHeight: int := 32

  /** The animation table: every state has a clip, and no clip is empty. */
  function ClipOf(s: AnimState): (c: Clip)
    ensures 1 <= c.frames <= MaxClipFrames
  {
    match s
    case Idle => Clip(4, 0)
    case Walk => Clip(4, 1)
    case Run => Clip(8, 2)
  }

  const VillagerScript: Script :=
    Script("Welcome to our peaceful town, traveler!",
           ["The cherry blossoms are beautiful this time of year.",
            "Have you visited the merchant's shop? He has rare items.",
            "Our town is known for its peaceful way of life."])

  const LordScript: Script :=
    Script("Ah, a new face in our humble town.",
           ["The dojo up ahead teaches meditation and inner peace.",
            "As the town's lord, I ensure everyone lives in harmony.",
            "Perhaps you'd like to settle here? We welcome peaceful souls."])

  const RoninScript: Script :=
    Script("Peace be with you, wanderer.",
           ["I've found tranquility in tending to the garden.",
            "The townspeople here showed me the beauty of peace.",
            "Each day brings new opportunities for mindfulness."])

  /** The dialogue table: each NPC type has a greeting and three follow-up lines. */
  function ScriptOf(t: NpcType): (s: Script)
    ensures s.greeting != [] && |s.conversations| == 3
  {
    match t
    case Villager => VillagerScript
    case Lord => LordScript
    case Ronin => RoninScript
  }

  /** The three NPCs of the town, standing on the ground whose top is at `groundY`. */
  function InitNpcs(groundY: int): (npcs: seq<Npc>)
    ensures |npcs| == 3
    ensures npcs[0].kind == Villager && npcs[1].kind == Lord && npcs[2].kind == Ronin
    ensures forall i :: 0 <= i < |npcs| ==>
      npcs[i].frame == 0 && npcs[i].y == groundY - 56 && npcs[i].width == 58 && npcs[i].height == 56
  {
    [Npc(Villager, 400, groundY - 56, 29 * 2, 28 * 2, 0, Left),
     Npc(Lord, 700, groundY - 56, 29 * 2, 28 * 2, 0, Right),
     Npc(Ronin, 1000, groundY - 56, 29 * 2, 28 * 2, 0, Left)]
  }

  /** The player as the game starts: standing idle at x = 100, facing right. */
  function InitPlayer(groundY: int): (p: Player)
    ensures p.state == Idle && !p.isMoving && !p.isRunning && p.direction == Right
    ensures 0 <= p.x <= MapWidth - p.width
    ensures p.y + p.height == groundY
  {
    Player(100, groundY - SpriteFrameHeight * 2, SpriteFrameWidth * 2, SpriteFrameHeight * 2,
           3, 7, Idle, Right, false, false)
  }
}
