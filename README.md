# BTech rules vocabulary and map-editor managers, in Dafny

This project models three parts of BTech, a hex-grid mech skirmish game with a map editor.

- **The rules vocabulary** (`src/BTCommon/Utils.h`), in `rules.dfy`, module `Rules`. This covers:
  - the game phases, game versions, mech part types and sides, weapon types, ranges, effect types and sources, and movement and combat actions, each with its fixed integer code;
  - the ordered tables `phases`, `gameVersions`, `ranges`, `attackRanges`, `shootRanges`, `movementActions` and `combatActions`;
  - the dice bounds, the range-modifier constants and the angle constants;
  - the 2x2 integer `Matrix`.

  Codes are explicit functions. Part types and part sides have their codes in separate nibbles of a byte, so a type and a side can be or-ed into one byte. `PartCode` models that combination on `bv8`.
- **The editor's player roster** (`src/BTMapEditor/PlayersManager.cpp`), in `players_manager.dfy`, module `Players`. The class `PlayersManager` holds:
  - the roster as a `seq<Player>` of (name, description) records, capped at 8 by `PlayersManager.h:32`;
  - the combo box, as its items and its current text;
  - the text of the name and description fields;
  - one enabled flag per widget.

  A `Player *` returned by a lookup is modelled as the player's position in the roster.
- **Allowed-version selection and the map description** (`src/BTMapEditor/MapPropertiesManager.cpp`), in `map_properties_manager.dfy`, module `MapProperties`.
  - `GameVersionDialog` holds one checkbox per version as a `map<GameVersion, bool>`, plus the visibility of the warning label and whether the dialog has been accepted.
  - `MapPropertiesManager` holds the map description, the edit field's text and `allowedVersions: seq<GameVersion>`.
  - The dialog's modal run (`exec()`) is driven by a sequence of user events: toggle a box, press confirm, or close. The ghost function `Session` gives the end state of such a run, and `Exec` is proved to reach exactly that state. A real `exec()` returns only on accept or reject. A `Session` whose events run out before either one ends unaccepted, and `EditVersions` then treats it as a cancel.

`wrappers.dfy` holds an `Option` type, used where the source returns a `Player *` that may be null.

Assumptions and notes:
- Refilling an emptied Qt combo box makes its first item current. So after `Refresh` the current text is the first player's name, or empty when there are no players.
- `indexString` and the string `Strings::UnnamedPlayer` are defined outside the modelled files. They are parameters of `AddNewPlayer`, and nothing is assumed about the name they produce.
- A newly created `Player` is assumed to have an empty description, since `Player`'s constructor is not part of this model.
- `addNewPlayer` refuses only when the roster size *equals* 8. The model keeps that test. So the roster stays within 8 only if it started within 8, and a roster loaded with more players would still grow.
- `savePlayer` and `onPlayerChosen` dereference the current player without checking it. Their models therefore require that the combo box's text names a player.
- `Matrix::det` is defined outside the modelled files. `Det` is the determinant `x1*y2 - y1*x2` that its name and the class comment ("matrix operations for Z(2, 2)") describe.

## Model

| member | source | states |
|---|---|---|
| Rules.PhaseCode | src/BTCommon/Utils.h:17-27 | every phase code fits the `qint8` underlying type |
| Rules.PhasesListEveryPhaseOnce | src/BTCommon/Utils.h:17-38 | `phases` contains a phase iff it is not `None`, and no phase twice |
| Rules.PhaseIndexIsCode | src/BTCommon/Utils.h:17-38 | `phases` has 8 entries; the entry at index i has code i, so codes strictly increase along the table |
| Rules.VersionCode | src/BTCommon/Utils.h:45-48 | a version's implicit code is 0 or 1, within `quint8` |
| Rules.GameVersionsListEveryVersionOnce | src/BTCommon/Utils.h:45-53 | `gameVersions` contains every version exactly once, and a version's index is its code |
| Rules.PartTypeCode | src/BTCommon/Utils.h:78-83 | every part-type code is below 0x10 |
| Rules.PartSideCode | src/BTCommon/Utils.h:93-100 | every part-side code is a nonzero multiple of 0x10, at most 0x60 |
| Rules.PartTypeOfCode | src/BTCommon/Utils.h:78-83 | decoding a byte yields a type whose code is that byte, and succeeds whenever some type has that code |
| Rules.PartSideOfCode | src/BTCommon/Utils.h:93-100 | decoding a byte yields a side whose code is that byte, and succeeds whenever some side has that code |
| Rules.PartCode | src/BTCommon/Utils.h:72-100 | masking the combined code of a type and a side with 0x0F gives the type's code and with 0xF0 the side's code |
| Rules.PartCodeRoundTrip | src/BTCommon/Utils.h:72-100 | decoding the combined part code gives back the (type, side) pair |
| Rules.PartCodeInjective | src/BTCommon/Utils.h:72-100 | two parts with the same combined code have the same type and the same side |
| Rules.WeaponTypeCode | src/BTCommon/Utils.h:110-114 | every weapon-type code is 0, 1 or 2, as declared |
| Rules.WeaponTypeCodesDistinct | src/BTCommon/Utils.h:110-114 | distinct weapon types have distinct codes |
| Rules.TwoDiceBoundsDoubleDieBounds | src/BTCommon/Utils.h:124-132 | the die bounds are [1,6] and the two-dice bounds [2,12]; each two-dice bound is twice the die bound; a sum of two die rolls is a two-dice roll, and every two-dice roll splits into two die rolls |
| Rules.RangeCode | src/BTCommon/Utils.h:137-143 | every range code is at most 4 (`OutOfRange`) |
| Rules.Without | src/BTCommon/Utils.h:145-162 | removing a value from a table leaves exactly the other values |
| Rules.RangeTablesNested | src/BTCommon/Utils.h:137-162 | `ranges` lists every range; `attackRanges` is `ranges` without `OutOfRange` and `shootRanges` is `attackRanges` without `Contact`; all three ascend by code |
| Rules.RangeModifierBounds | src/BTCommon/Utils.h:166-168 | MIN <= 0 <= MAX, and the infinite modifier lies outside [MIN, MAX], so no modifier within the bounds equals it |
| Rules.EffectCode | src/BTCommon/Utils.h:178-193 | every effect code fits the `quint16` underlying type |
| Rules.EffectCodeHighByte | src/BTCommon/Utils.h:178-193 | `Walked`, `Run` and `Jumped` have high byte 1 and every other effect has high byte 0; effect codes are distinct |
| Rules.EffectSourceCode | src/BTCommon/Utils.h:203-208 | every effect-source code is at most 3 |
| Rules.EffectSourceCodesDistinct | src/BTCommon/Utils.h:203-208 | distinct effect sources have distinct codes |
| Rules.MovementActionCode | src/BTCommon/Utils.h:216-223 | the six movement actions have implicit codes below 6 |
| Rules.MovementActionsInCodeOrder | src/BTCommon/Utils.h:216-232 | `movementActions` lists every movement action, each at the index equal to its code |
| Rules.CombatActionCode | src/BTCommon/Utils.h:240-248 | the seven combat actions have implicit codes below 7 |
| Rules.CombatActionsInCodeOrder | src/BTCommon/Utils.h:240-258 | `combatActions` lists every combat action, each at the index equal to its code |
| Rules.AngleConstants | src/BTCommon/Utils.h:286-290 | the full angle is 360, twice the straight angle and six times the hex angle |
| Rules.NewMatrix | src/BTCommon/Utils.h:304-305 | the constructor stores its four arguments |
| Rules.Matrix.Det | src/BTCommon/Utils.h:307 | the determinant is 0 when a row is zero or the two rows are equal, and is the diagonal product on a diagonal matrix |
| Rules.DefaultMatrixIsSingular | src/BTCommon/Utils.h:300-308 | the default-constructed matrix is all zeros and its determinant is 0 |
| Rules.DetIsDeterminant | src/BTCommon/Utils.h:296-308 | `Det` changes sign when the rows are swapped, is 0 on parallel rows, is unchanged by transposition, is additive in the first row, and is 1 on the identity |
| Players.Names | src/BTMapEditor/PlayersManager.cpp:66-67 | the name list has one entry per player, in roster order |
| Players.FindPlayer | src/BTMapEditor/PlayersManager.cpp:92-98 | the result is the first position whose player has the name; it is absent exactly when no player has it |
| Players.FindPlayerSeesOnlyNames | src/BTMapEditor/PlayersManager.cpp:92-98 | two rosters with the same names give the same lookup result |
| Players.DescriptionWriteKeepsLookup | src/BTMapEditor/PlayersManager.cpp:136-139 | writing a description first leaves every later lookup by name unchanged |
| Players.RenameMovesLookup | src/BTMapEditor/PlayersManager.cpp:138-139 | after the found player is renamed, a lookup by the old name no longer finds that player; this is why the name is written last |
| Players.PlayersManager.constructor | src/BTMapEditor/PlayersManager.cpp:3-55 | holds the given roster, the add button starts disabled, and the view is refreshed |
| Players.PlayersManager.SetPlayers | src/BTMapEditor/PlayersManager.cpp:57-61 | replaces the roster and refreshes the view |
| Players.PlayersManager.Refresh | src/BTMapEditor/PlayersManager.cpp:63-83 | the combo box lists the names and shows the first one; the fields show the first player; the combo box, remove button, both fields and save button are enabled iff the roster is non-empty; with an empty roster both fields are cleared; the roster and the add button are unchanged |
| Players.PlayersManager.OnMapLoaded | src/BTMapEditor/PlayersManager.cpp:85-90 | enables the add button and refreshes the view |
| Players.PlayersManager.OnPlayerChosen | src/BTMapEditor/PlayersManager.cpp:105-110 | the chosen item becomes current; the combo box still lists the names; the fields show the first player with that name, and the returned player, the one the `playerChosen` signal names, is that first player, at or before the chosen index |
| Players.PlayersManager.GetPlayer | src/BTMapEditor/PlayersManager.cpp:92-98 | the loop returns the first matching player, or none (equals `FindPlayer`) |
| Players.PlayersManager.GetCurrentPlayer | src/BTMapEditor/PlayersManager.cpp:100-103 | the lookup uses the combo box's current text |
| Players.PlayersManager.CollectNames | src/BTMapEditor/PlayersManager.cpp:117-119 | the collected list is exactly the players' names in roster order |
| Players.PlayersManager.AddNewPlayer | src/BTMapEditor/PlayersManager.cpp:112-128 | at size 8 nothing changes. Otherwise exactly one player is appended, with the existing entries kept in order; the new player is named by `indexString` from the current names and has an empty description, and the view is refreshed. A roster of at most 8 stays at most 8 |
| Players.PlayersManager.RemovePlayer | src/BTMapEditor/PlayersManager.cpp:130-134 | reports the current player and changes nothing; the method has no modifies clause |
| Players.PlayersManager.SavePlayer | src/BTMapEditor/PlayersManager.cpp:136-142 | exactly the player named by the pre-edit current text gets the edited name and description, no other player changes, and the view is refreshed |
| MapProperties.Selected | src/BTMapEditor/MapPropertiesManager.cpp:116-123 | the filtered list is no longer than the list it filters, and every entry's box is checked |
| MapProperties.SelectedMembers | src/BTMapEditor/MapPropertiesManager.cpp:116-123 | a version is in the filtered list iff it is listed and checked |
| MapProperties.SelectedKeepsOrder | src/BTMapEditor/MapPropertiesManager.cpp:116-123 | the filtered list is a subsequence of the list it filters |
| MapProperties.SelectedNoDuplicates | src/BTMapEditor/MapPropertiesManager.cpp:116-123 | filtering a list without duplicates yields one without duplicates |
| MapProperties.SelectedSeesOnlyListed | src/BTMapEditor/MapPropertiesManager.cpp:116-123 | the filter depends only on the boxes of the listed versions |
| MapProperties.AllowedVersionsOfChecks | src/BTMapEditor/MapPropertiesManager.cpp:116-123 | the allowed list holds exactly the checked versions, once each, in `gameVersions` order, and is non-empty iff some box is checked |
| MapProperties.PrecheckOf | src/BTMapEditor/MapPropertiesManager.cpp:76-77 | a version's box is pre-checked iff the version is in the list |
| MapProperties.UneditedConfirm | src/BTMapEditor/MapPropertiesManager.cpp:73-80 | confirming the pre-checked dialog unedited is accepted iff the old list is non-empty, and keeps the pre-checked boxes; with an empty list it only shows the warning |
| MapProperties.UneditedConfirmIsIdempotent | src/BTMapEditor/MapPropertiesManager.cpp:73-80 | the list an unedited confirm produces holds exactly the old list's versions, and an unedited confirm of that list gives the same list |
| MapProperties.Session | src/BTMapEditor/MapPropertiesManager.cpp:135-144 | the end of a modal run still has a box for every version |
| MapProperties.AcceptedSessionHasSelection | src/BTMapEditor/MapPropertiesManager.cpp:135-144 | a run that ends accepted leaves a non-empty allowed list |
| MapProperties.GameVersionDialog.constructor | src/BTMapEditor/MapPropertiesManager.cpp:86-114 | every version's box starts checked; the warning is hidden and the dialog not accepted |
| MapProperties.GameVersionDialog.IsChecked | src/BTMapEditor/MapPropertiesManager.cpp:130-133 | a version's box is checked iff the version is in the allowed list the dialog would return |
| MapProperties.GameVersionDialog.SetChecked | src/BTMapEditor/MapPropertiesManager.cpp:125-133 | afterwards `IsChecked(v)` is the value set, and every other version's flag is unchanged |
| MapProperties.GameVersionDialog.GetAllowedVersions | src/BTMapEditor/MapPropertiesManager.cpp:116-123 | the loop returns the checked versions filtered in `gameVersions` order |
| MapProperties.GameVersionDialog.TryConfirm | src/BTMapEditor/MapPropertiesManager.cpp:135-144 | accepts iff some box is checked and then leaves the warning alone; otherwise it only shows the warning |
| MapProperties.GameVersionDialog.Exec | src/BTMapEditor/MapPropertiesManager.cpp:78 | the modal run ends in exactly the state `Session` gives, and returns whether it was accepted |
| MapProperties.MapPropertiesManager.constructor | src/BTMapEditor/MapPropertiesManager.cpp:8-44 | holds the description and versions, shows the description, and starts with the controls disabled |
| MapProperties.MapPropertiesManager.Refresh | src/BTMapEditor/MapPropertiesManager.cpp:46-49 | the displayed text becomes the stored description |
| MapProperties.MapPropertiesManager.OnMapLoaded | src/BTMapEditor/MapPropertiesManager.cpp:51-57 | enables the controls and shows the stored description; nothing else changes |
| MapProperties.MapPropertiesManager.SaveMapDescription | src/BTMapEditor/MapPropertiesManager.cpp:67-71 | the stored description becomes the edited text, after which display and store agree |
| MapProperties.MapPropertiesManager.PrecheckedDialog | src/BTMapEditor/MapPropertiesManager.cpp:75-77 | a fresh dialog with a version's box checked iff the version is allowed |
| MapProperties.MapPropertiesManager.EditVersions | src/BTMapEditor/MapPropertiesManager.cpp:73-80 | if the run is accepted, `allowedVersions` becomes the checked versions in `gameVersions` order, which is non-empty; if it is cancelled, `allowedVersions` is unchanged |

## Left out

- `versionToPhaseList`, `MAX_RANGE` and the `BiHash` string tables: they are declared in `Utils.h` but their contents are defined elsewhere.
- The `QDataStream` operators: serialization whose bodies are defined elsewhere.
- `dThrow`, `d2Throw`, `checkRoll` and `randomInt`: they are defined outside the modelled files, and `dThrow`, `d2Throw` and `randomInt` are random.
- `Math::lineAngle`: it is defined outside the modelled files, and two of its three overloads take floating-point `QPointF` points.
- `General::indexString`: it is defined outside the modelled files. It is a parameter of `AddNewPlayer`, and no freshness of the name is claimed.
- `General::startTime` and `General::getTime`: clock I/O.
- `EntityType`: a single-value enumeration that the modelled code does not use.
- Rules.DetIsDeterminant: `int` is unbounded here, so 32-bit overflow in `det` (undefined behaviour in C++) is not modelled.
- `Matrix::operator=` has no member of its own: `Matrix` is a Dafny datatype, so assignment copies all four fields by value.
- Player objects are values in a sequence, not shared `Player *` objects. So aliasing is not modelled: the same `Player` object reached through another list would not change with the roster.
- `players` (a `QVector<Player *> &`, `PlayersManager.h:36`), `mapDescriptionRef` and `allowedVersions` are fields here, not references shared with the editor window. So `SetPlayers` is modelled as replacing the roster field; in the source, `setPlayers` assigns into the vector the manager was built with, and the editor window sees the change.
- The description edit fields are modelled as holding exactly the text that was set. Qt's `QTextEdit::setText` guesses whether the text is rich text, and `toPlainText` reads back only the visible text. So a stored description such as `<b>x</b>` would be shown as a bold x and saved back as `x`. The model's "after a save, display and store agree" (`SaveMapDescription`, `SavePlayer`) holds only under that assumption. `setPlainText` may have been intended.
- Players.PlayersManager.RemovePlayer: the roster entry is removed by the listener of the signal, in files that are not part of this model; only the report of the current player is modelled.
- Widget construction, layouts, sizes, label texts and `emit` calls: only the data the widgets hold is modelled. The `playerChosen` and `playerNeedsRemoving` signals, which name a player, are modelled as the position that `OnPlayerChosen` and `RemovePlayer` return.
- The turn and combat rules (phase advancing, hit resolution, damage and effects): they are not in the modelled files.
- `BTGame.cpp`, `BTMapEditor.cpp` and `ToolBar.cpp`: window, menu, dock, settings and file-dialog wiring.
