/**
 * The rules vocabulary shared by the game and the map editor: the enumerations
 * with their fixed integer codes, the constant tables listed in a fixed order,
 * the dice and range-modifier bounds, the angle constants and the 2x2 integer
 * matrix. Enumeration codes are given by explicit `Code` functions, because the
 * program relies on them (part codes are combined bitwise).
 */
module Rules {
  import opened Wrappers

  /** Every phase any playable version of the game can go through. */
  datatype GamePhase =
    | None
    | Initiative | Movement | Reaction | WeaponAttack
    | PhysicalAttack | Combat | Heat | End

  /** The `qint8` code of a phase. */
  function PhaseCode(p: GamePhase): (c: int)
    ensures -128 <= c < 128
  {
    match p
    case None => -1
    case Initiative => 0
    case Movement => 1
    case Reaction => 2
    case WeaponAttack => 3
    case PhysicalAttack => 4
    case Combat => 5
    case Heat => 6
    case End => 7
  }

  /** The phases of a turn, in the order they take place. */
  const Phases: seq<GamePhase> := [
    GamePhase.Initiative, GamePhase.Movement, GamePhase.Reaction, GamePhase.WeaponAttack,
    GamePhase.PhysicalAttack, GamePhase.Combat, GamePhase.Heat, GamePhase.End
  ]

  lemma PhasesListEveryPhaseOnce()
    ensures forall p :: p in Phases <==> p != GamePhase.None
    ensures forall i, j :: 0 <= i < j < |Phases| ==> Phases[i] != Phases[j]
  {
  }

  /** A phase's position in `Phases` is its code, so the table is ordered by code. */
  lemma PhaseIndexIsCode()
    ensures |Phases| == 8
    ensures forall i :: 0 <= i < |Phases| ==> PhaseCode(Phases[i]) == i
    ensures forall i, j :: 0 <= i < j < |Phases| ==> PhaseCode(Phases[i]) < PhaseCode(Phases[j])
  {
  }

  datatype GameVersion = BasicBattleDroids | AdvancedBattleDroids

  /** The `quint8` code of a version: its position in the declaration. */
  function VersionCode(v: GameVersion): (c: nat)
    ensures c < 2
  {
    match v
    case BasicBattleDroids => 0
    case AdvancedBattleDroids => 1
  }

  const GameVersions: seq<GameVersion> := [BasicBattleDroids, AdvancedBattleDroids]

  /** No element occurs twice in `s`. */
  predicate NoDuplicates<T(==)>(s: seq<T>)
  {
    forall i, j :: 0 <= i < j < |s| ==> s[i] != s[j]
  }

  lemma GameVersionsListEveryVersionOnce()
    ensures forall v: GameVersion :: v in GameVersions
    ensures NoDuplicates(GameVersions)
    ensures forall i :: 0 <= i < |GameVersions| ==> VersionCode(GameVersions[i]) == i
    ensures forall v :: VersionCode(v) < |GameVersions| && GameVersions[VersionCode(v)] == v
  {
    forall v: GameVersion ensures v in GameVersions {
      assert GameVersions[VersionCode(v)] == v;
    }
  }

  datatype MechPartType = Head | Torso | Arm | Leg

  datatype MechPartSide = General | Center | Left | Right | Front | Rear

  /** The `quint8` code of a part type, held in the low nibble. */
  function PartTypeCode(t: MechPartType): (c: bv8)
    ensures c < 0x10
  {
    match t
    case Head => 0x00
    case Torso => 0x01
    case Arm => 0x02
    case Leg => 0x03
  }

  /** The `quint8` code of a part side, held in the high nibble. */
  function PartSideCode(s: MechPartSide): (c: bv8)
    ensures c & 0x0F == 0 && 0x10 <= c <= 0x60
  {
    match s
    case General => 0x10
    case Center => 0x20
    case Left => 0x30
    case Right => 0x40
    case Front => 0x50
    case Rear => 0x60
  }

  /**
   * The one-byte code of a part: its type and its side combined bitwise.
   * Masking it with 0x0F gives back the type's code, with 0xF0 the side's.
   */
  function PartCode(t: MechPartType, s: MechPartSide): (c: bv8)
    ensures c & 0x0F == PartTypeCode(t)
    ensures c & 0xF0 == PartSideCode(s)
  {
    PartTypeCode(t) | PartSideCode(s)
  }

  function PartTypeOfCode(c: bv8): (r: Option<MechPartType>)
    ensures r.Some? ==> PartTypeCode(r.value) == c
    ensures (exists t :: PartTypeCode(t) == c) ==> r.Some?
  {
    if c == 0x00 then Some(Head)
    else if c == 0x01 then Some(Torso)
    else if c == 0x02 then Some(Arm)
    else if c == 0x03 then Some(Leg)
    else Option.None
  }

  function PartSideOfCode(c: bv8): (r: Option<MechPartSide>)
    ensures r.Some? ==> PartSideCode(r.value) == c
    ensures (exists s :: PartSideCode(s) == c) ==> r.Some?
  {
    if c == 0x10 then Some(General)
    else if c == 0x20 then Some(Center)
    else if c == 0x30 then Some(Left)
    else if c == 0x40 then Some(Right)
    else if c == 0x50 then Some(Front)
    else if c == 0x60 then Some(Rear)
    else Option.None
  }

  /** Splits a part code into the type in its low nibble and the side in its high nibble. */
  function DecodePart(c: bv8): Option<(MechPartType, MechPartSide)>
  {
    match (PartTypeOfCode(c & 0x0F), PartSideOfCode(c & 0xF0))
    case (Some(t), Some(s)) => Some((t, s))
    case _ => Option.None
  }

  lemma PartCodeRoundTrip(t: MechPartType, s: MechPartSide)
    ensures DecodePart(PartCode(t, s)) == Some((t, s))
  {
  }

  /** Different parts never share a code. */
  lemma PartCodeInjective(t1: MechPartType, s1: MechPartSide, t2: MechPartType, s2: MechPartSide)
    ensures PartCode(t1, s1) == PartCode(t2, s2) ==> t1 == t2 && s1 == s2
  {
  }

  datatype WeaponType = Energy | Ballistic | Missile

  function WeaponTypeCode(w: WeaponType): (c: nat)
    ensures c < 3
  {
    match w
    case Energy => 0
    case Ballistic => 1
    case Missile => 2
  }

  lemma WeaponTypeCodesDistinct()
    ensures forall w1, w2 :: WeaponTypeCode(w1) == WeaponTypeCode(w2) ==> w1 == w2
  {
  }

  /** The face value of one die, or the sum of two; `int` as in the source. */
  type DiceRoll = int

  const MinDieRoll: DiceRoll := 1
  const MaxDieRoll: DiceRoll := 6
  const MinTwoDiceRoll: DiceRoll := 2
  const MaxTwoDiceRoll: DiceRoll := 12

  predicate IsDieRoll(r: DiceRoll)
  {
    MinDieRoll <= r <= MaxDieRoll
  }

  predicate IsTwoDiceRoll(r: DiceRoll)
  {
    MinTwoDiceRoll <= r <= MaxTwoDiceRoll
  }

  /**
   * The two-dice bounds are twice the one-die bounds, so the sum of two die
   * rolls is a two-dice roll, and every two-dice roll is such a sum.
   */
  lemma TwoDiceBoundsDoubleDieBounds()
    ensures MinDieRoll == 1 && MaxDieRoll == 6 && MinTwoDiceRoll == 2 && MaxTwoDiceRoll == 12
    ensures MinTwoDiceRoll == 2 * MinDieRoll && MaxTwoDiceRoll == 2 * MaxDieRoll
    ensures forall a, b :: IsDieRoll(a) && IsDieRoll(b) ==> IsTwoDiceRoll(a + b)
    ensures forall r :: IsTwoDiceRoll(r) ==> IsDieRoll(r / 2) && IsDieRoll(r - r / 2)
  {
  }

  datatype Range = Contact | Short | Medium | Long | OutOfRange

  function RangeCode(r: Range): (c: nat)
    ensures c <= 4
  {
    match r
    case Contact => 0
    case Short => 1
    case Medium => 2
    case Long => 3
    case OutOfRange => 4
  }

  const Ranges: seq<Range> := [Contact, Short, Medium, Long, OutOfRange]
  /** The ranges at which an attack of any kind is possible. */
  const AttackRanges: seq<Range> := [Contact, Short, Medium, Long]
  /** The ranges at which a weapon can be fired. */
  const ShootRanges: seq<Range> := [Short, Medium, Long]

  /** `s` with every occurrence of `x` removed, order kept. */
  function Without<T(==,!new)>(s: seq<T>, x: T): (r: seq<T>)
    ensures x !in r
    ensures forall y :: y in r <==> y in s && y != x
  {
    if s == [] then []
    else if s[0] == x then Without(s[1..], x)
    else [s[0]] + Without(s[1..], x)
  }

  /** Every element of `s` has a smaller range code than the next one. */
  predicate AscendingByCode(s: seq<Range>)
  {
    forall i, j :: 0 <= i < j < |s| ==> RangeCode(s[i]) < RangeCode(s[j])
  }

  lemma RangeTablesNested()
    ensures forall r :: r in Ranges
    ensures AttackRanges == Without(Ranges, OutOfRange)
    ensures ShootRanges == Without(AttackRanges, Contact)
    ensures AscendingByCode(Ranges) && AscendingByCode(AttackRanges) && AscendingByCode(ShootRanges)
  {
    forall r ensures r in Ranges {
      assert Ranges[RangeCode(r)] == r;
    }
    assert Ranges[1..][1..][1..][1..] == [OutOfRange];
    assert AttackRanges[1..] == ShootRanges;
  }

  const InfRangeModifier: int := 100
  const MinRangeModifier: int := -10
  const MaxRangeModifier: int := 10

  /** A modifier within the clamping bounds. */
  predicate IsClampedModifier(m: int)
  {
    MinRangeModifier <= m <= MaxRangeModifier
  }

  /** The bounds enclose zero and the infinite modifier lies outside them. */
  lemma RangeModifierBounds()
    ensures MinRangeModifier <= 0 <= MaxRangeModifier
    ensures !IsClampedModifier(InfRangeModifier)
    ensures forall m :: IsClampedModifier(m) ==> m != InfRangeModifier
  {
  }

  datatype EffectType =
    | None
    | Destroyed | ShutDown | Immobilised | Slowed
    | CannotRun | CannotShoot | CannotAttack | AimingBothered
    | Walked | Run | Jumped

  /** The `quint16` code of an effect; movement markers have high byte 1. */
  function EffectCode(e: EffectType): (c: nat)
    ensures c < 0x10000
  {
    match e
    case None => 0x000
    case Destroyed => 0x001
    case ShutDown => 0x002
    case Immobilised => 0x003
    case Slowed => 0x004
    case CannotRun => 0x005
    case CannotShoot => 0x006
    case CannotAttack => 0x007
    case AimingBothered => 0x008
    case Walked => 0x101
    case Run => 0x102
    case Jumped => 0x103
  }

  /** The effects a movement leaves behind. */
  predicate IsMovementEffect(e: EffectType)
  {
    e == Walked || e == EffectType.Run || e == Jumped
  }

  lemma EffectCodeHighByte()
    ensures forall e :: EffectCode(e) / 0x100 == (if IsMovementEffect(e) then 1 else 0)
    ensures forall e1, e2 :: EffectCode(e1) == EffectCode(e2) ==> e1 == e2
  {
  }

  datatype EffectSource = NoSource | Attack | Heat | Movement

  function EffectSourceCode(s: EffectSource): (c: nat)
    ensures c <= 3
  {
    match s
    case NoSource => 0
    case Attack => 1
    case Heat => 2
    case Movement => 3
  }

  lemma EffectSourceCodesDistinct()
    ensures forall s1, s2 :: EffectSourceCode(s1) == EffectSourceCode(s2) ==> s1 == s2
  {
  }

  datatype MovementAction = Idle | Walk | Run | Jump | TurnRight | TurnLeft

  function MovementActionCode(a: MovementAction): (c: nat)
    ensures c < 6
  {
    match a
    case Idle => 0
    case Walk => 1
    case Run => 2
    case Jump => 3
    case TurnRight => 4
    case TurnLeft => 5
  }

  const MovementActions: seq<MovementAction> := [
    MovementAction.Idle, Walk, MovementAction.Run, Jump, TurnRight, TurnLeft
  ]

  lemma MovementActionsInCodeOrder()
    ensures forall a :: a in MovementActions
    ensures forall i :: 0 <= i < |MovementActions| ==> MovementActionCode(MovementActions[i]) == i
  {
    forall a ensures a in MovementActions {
      assert MovementActions[MovementActionCode(a)] == a;
    }
  }

  datatype CombatAction = Idle | SimpleAttack | WeaponAttack | Punch | Kick | Push | Charge

  function CombatActionCode(a: CombatAction): (c: nat)
    ensures c < 7
  {
    match a
    case Idle => 0
    case SimpleAttack => 1
    case WeaponAttack => 2
    case Punch => 3
    case Kick => 4
    case Push => 5
    case Charge => 6
  }

  const CombatActions: seq<CombatAction> := [
    CombatAction.Idle, SimpleAttack, CombatAction.WeaponAttack, Punch, Kick, Push, Charge
  ]

  lemma CombatActionsInCodeOrder()
    ensures forall a :: a in CombatActions
    ensures forall i :: 0 <= i < |CombatActions| ==> CombatActionCode(CombatActions[i]) == i
  {
    forall a ensures a in CombatActions {
      assert CombatActions[CombatActionCode(a)] == a;
    }
  }

  /** Angles in whole degrees; the divisions are exact, as in the source. */
  const FullAngle: int := 360
  const StraightAngle: int := FullAngle / 2
  const HexAngle: int := FullAngle / 6

  lemma AngleConstants()
    ensures FullAngle == 360
    ensures StraightAngle * 2 == FullAngle
    ensures HexAngle * 6 == FullAngle
    ensures HexAngle * 3 == StraightAngle
  {
  }

  /** A 2x2 integer matrix with rows (x1, y1) and (x2, y2). */
  datatype Matrix = Matrix(x1: int, y1: int, x2: int, y2: int)
  {
    /**
     * The determinant, i.e. the cross product of the two rows: zero when a
     * row is zero or the rows are equal, the diagonal product when the
     * matrix is diagonal.
     */
    function Det(): (d: int)
      ensures (x1 == 0 && y1 == 0) || (x2 == 0 && y2 == 0) ==> d == 0
      ensures x1 == x2 && y1 == y2 ==> d == 0
      ensures y1 == 0 && x2 == 0 ==> d == x1 * y2
    {
      x1 * y2 - y1 * x2
    }
  }

  /** The constructor; every entry defaults to zero. */
  function NewMatrix(x1: int := 0, y1: int := 0, x2: int := 0, y2: int := 0): (m: Matrix)
    ensures m.x1 == x1 && m.y1 == y1 && m.x2 == x2 && m.y2 == y2
  {
    Matrix(x1, y1, x2, y2)
  }

  lemma DefaultMatrixIsSingular()
    ensures NewMatrix() == Matrix(0, 0, 0, 0)
    ensures NewMatrix().Det() == 0
  {
  }

  /**
   * The determinant is the alternating form of the two rows: it changes sign
   * when the rows are swapped, vanishes on parallel rows, is unchanged by
   * transposition and is linear in the first row.
   */
  lemma DetIsDeterminant(m: Matrix, k: int, a: int, b: int)
    ensures Matrix(m.x2, m.y2, m.x1, m.y1).Det() == -m.Det()
    ensures Matrix(m.x1, m.x2, m.y1, m.y2).Det() == m.Det()
    ensures Matrix(m.x1, m.y1, k * m.x1, k * m.y1).Det() == 0
    ensures Matrix(m.x1 + a, m.y1 + b, m.x2, m.y2).Det() == m.Det() + Matrix(a, b, m.x2, m.y2).Det()
    ensures Matrix(1, 0, 0, 1).Det() == 1
  {
  }
}
