/**
 * The map editor's player roster: a list of players (name and description),
 * a combo box listing their names, and the fields that show and edit the
 * chosen player. Widgets are reduced to the data they hold: the items and the
 * current text of the combo box, the text of the two edit fields, and an
 * enabled flag per widget.
 */
module Players {
  import opened Wrappers

  /** The most players a map may have. */
  const MaxPlayersSize: nat := 8

  datatype Player = Player(name: string, description: string)

  /** The players' names, in roster order. */
  function Names(ps: seq<Player>): (r: seq<string>)
    ensures |r| == |ps|
    ensures forall i :: 0 <= i < |ps| ==> r[i] == ps[i].name
  {
    seq(|ps|, i requires 0 <= i < |ps| => ps[i].name)
  }

  /** The position of the first player called `name`, or `None` if nobody is. */
  function FindPlayer(ps: seq<Player>, name: string): (r: Option<nat>)
    ensures r.Some? ==> r.value < |ps| && ps[r.value].name == name
    ensures r.Some? ==> forall j :: 0 <= j < r.value ==> ps[j].name != name
    ensures r.None? <==> forall j :: 0 <= j < |ps| ==> ps[j].name != name
  {
    if ps == [] then None
    else if ps[0].name == name then Some(0)
    else match FindPlayer(ps[1..], name)
      case None => None
      case Some(k) => Some(k + 1)
  }

  /** The lookup depends on the names alone. */
  lemma FindPlayerSeesOnlyNames(ps: seq<Player>, qs: seq<Player>, name: string)
    requires Names(ps) == Names(qs)
    ensures FindPlayer(ps, name) == FindPlayer(qs, name)
  {
  }

  /** Writing a player's description keeps every lookup where it was. */
  lemma DescriptionWriteKeepsLookup(ps: seq<Player>, k: nat, d: string, name: string)
    requires k < |ps|
    ensures FindPlayer(ps[k := ps[k].(description := d)], name) == FindPlayer(ps, name)
  {
    assert Names(ps[k := ps[k].(description := d)]) == Names(ps);
    FindPlayerSeesOnlyNames(ps[k := ps[k].(description := d)], ps, name);
  }

  /**
   * Renaming the player a lookup found moves that lookup away from it, so a
   * second lookup by the old name after the rename would reach another player
   * or none.
   */
  lemma RenameMovesLookup(ps: seq<Player>, name: string, n: string)
    requires FindPlayer(ps, name).Some?
    requires n != name
    ensures FindPlayer(ps[FindPlayer(ps, name).value := ps[FindPlayer(ps, name).value].(name := n)], name)
      != FindPlayer(ps, name)
  {
  }

  class PlayersManager {
    var players: seq<Player>

    /** The combo box: its items and its current text. */
    var comboItems: seq<string>
    var currentName: string

    /** The text of the name and description edit fields. */
    var nameField: string
    var descriptionField: string

    var comboEnabled: bool
    var addEnabled: bool
    var removeEnabled: bool
    var nameEnabled: bool
    var descriptionEnabled: bool
    var saveEnabled: bool

    /** The combo box lists the players' names, in roster order. */
    ghost predicate Valid()
      reads this
    {
      comboItems == Names(players)
    }

    /**
     * The view as `Refresh` leaves it: the combo box lists the names and shows
     * the first one, the fields show the first player, and everything but the
     * add button is enabled exactly when there are players; with no players
     * the fields are empty.
     */
    ghost predicate Refreshed()
      reads this
    {
      && Valid()
      && currentName == (if players == [] then "" else players[0].name)
      && nameField == (if players == [] then "" else players[0].name)
      && descriptionField == (if players == [] then "" else players[0].description)
      && comboEnabled == removeEnabled == nameEnabled == descriptionEnabled == saveEnabled == (players != [])
    }

    constructor (ps: seq<Player>)
      ensures players == ps && Refreshed() && !addEnabled
    {
      players := ps;
      addEnabled := false;
      saveEnabled := false;
      new;
      Refresh();
    }

    method SetPlayers(ps: seq<Player>)
      modifies this
      ensures players == ps && Refreshed()
      ensures addEnabled == old(addEnabled)
    {
      players := ps;
      Refresh();
    }

    method Refresh()
      modifies this
      ensures Refreshed()
      ensures players == old(players) && addEnabled == old(addEnabled)
    {
      comboItems := CollectNames();
      // Filling an emptied combo box makes its first item current.
      currentName := if players == [] then "" else players[0].name;
      var current := GetCurrentPlayer();
      if current.Some? {
        nameField := players[current.value].name;
        descriptionField := players[current.value].description;
      }
      var enabled := players != [];
      comboEnabled := enabled;
      removeEnabled := enabled;
      if !enabled {
        nameField := "";
        descriptionField := "";
      }
      nameEnabled := enabled;
      descriptionEnabled := enabled;
      saveEnabled := enabled;
    }

    method OnMapLoaded()
      modifies this
      ensures players == old(players) && Refreshed() && addEnabled
    {
      addEnabled := true;
      saveEnabled := true;
      Refresh();
    }

    /**
     * The user activates item `index` of the combo box; the fields show that
     * player, and `chosen` is the player the `playerChosen` signal names.
     */
    method OnPlayerChosen(index: nat) returns (chosen: Option<nat>)
      requires Valid() && index < |comboItems|
      modifies this`currentName, this`nameField, this`descriptionField
      ensures Valid() && currentName == comboItems[index]
      ensures chosen == FindPlayer(players, currentName) && chosen.Some?
      ensures chosen.value <= index && players[chosen.value].name == players[index].name
      ensures nameField == currentName && descriptionField == players[chosen.value].description
    {
      currentName := comboItems[index];
      var current := GetCurrentPlayer();
      nameField := players[current.value].name;
      current := GetCurrentPlayer();
      descriptionField := players[current.value].description;
      chosen := GetCurrentPlayer();
    }

    /** The first player called `name`, by position in the roster. */
    method GetPlayer(name: string) returns (r: Option<nat>)
      ensures r == FindPlayer(players, name)
    {
      for i := 0 to |players|
        invariant forall j :: 0 <= j < i ==> players[j].name != name
      {
        if players[i].name == name {
          return Some(i);
        }
      }
      return None;
    }

    method GetCurrentPlayer() returns (r: Option<nat>)
      ensures r == FindPlayer(players, currentName)
    {
      r := GetPlayer(currentName);
    }

    method CollectNames() returns (names: seq<string>)
      ensures names == Names(players)
    {
      names := [];
      for i := 0 to |players|
        invariant names == Names(players[..i])
      {
        assert players[..i + 1] == players[..i] + [players[i]];
        names := names + [players[i].name];
      }
      assert players[..|players|] == players;
    }

    /**
     * Appends a player named by `indexString` from `unnamedPlayer` and the
     * current names, unless the roster already holds `MaxPlayersSize` players.
     */
    method AddNewPlayer(indexString: (string, seq<string>) -> string, unnamedPlayer: string)
      modifies this
      ensures |old(players)| == MaxPlayersSize ==> unchanged(this)
      ensures |old(players)| != MaxPlayersSize ==>
        && players == old(players) + [Player(indexString(unnamedPlayer, Names(old(players))), "")]
        && Refreshed() && addEnabled == old(addEnabled)
      ensures |old(players)| <= MaxPlayersSize ==> |players| <= MaxPlayersSize
    {
      if |players| == MaxPlayersSize {
        return;
      }
      var existingNames := CollectNames();
      var newName := indexString(unnamedPlayer, existingNames);
      players := players + [Player(newName, "")];
      Refresh();
    }

    /** Names the player to be removed; the roster itself is left to the listener. */
    method RemovePlayer() returns (target: Option<nat>)
      ensures target == FindPlayer(players, currentName)
    {
      target := GetCurrentPlayer();
    }

    /**
     * Stores the edited description, then the edited name, into the current
     * player; both lookups find the player the combo box named before the edit.
     */
    method SavePlayer()
      requires FindPlayer(players, currentName).Some?
      modifies this
      ensures var k := FindPlayer(old(players), old(currentName)).value;
        players == old(players)[k := Player(old(nameField), old(descriptionField))]
      ensures Refreshed() && addEnabled == old(addEnabled)
    {
      var current := GetCurrentPlayer();
      var k := current.value;
      players := players[k := players[k].(description := descriptionField)];
      DescriptionWriteKeepsLookup(old(players), k, descriptionField, currentName);
      current := GetCurrentPlayer();
      k := current.value;
      players := players[k := players[k].(name := nameField)];
      Refresh();
    }
  }
}
