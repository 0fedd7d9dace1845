/**
 * The block-mining component as an object: the world is a two-dimensional
 * array of blocks whose cells `mineBlock` and `placeBlock` overwrite in place,
 * the inventory an array of slots whose counts they bump in place, and the
 * remaining state plain fields.  Every method is proved to move the object's
 * abstract state exactly as the matching transition of MinecraftSpec does,
 * so the lemmas proved there hold of the object too.
 */
module MinecraftGame {
  import opened Wrappers
  import opened MinecraftSpec

  class Game {
    var world: array2<Block>
    var inventory: array<Slot>
    var selected: BlockType
    var pos: Pos
    var health: int
    var hunger: int
    var mode: Mode
    var showCraft: bool
    /** The world array as rows of cells. */
    ghost var cells: Grid

    ghost function State(): GameState
      reads this, inventory
    {
      GameState(cells, inventory[..], selected, pos, health, hunger, mode, showCraft)
    }

    /** `cells` is what `world` holds. */
    ghost predicate Mirrors()
      reads this`cells, this`world, world
    {
      |cells| == world.Length0 &&
      (forall y :: 0 <= y < |cells| ==> |cells[y]| == world.Length1) &&
      (forall y, x :: 0 <= y < world.Length0 && 0 <= x < world.Length1 ==> cells[y][x] == world[y, x])
    }

    ghost predicate Valid()
      reads this, world, inventory
    {
      Mirrors() && WellFormed(State())
    }

    /** The first render: no world yet, empty slots, full vitals, survival. */
    constructor ()
      ensures Valid() && fresh(world) && fresh(inventory)
      ensures State() == Initial()
    {
      world := new Block[0, 0];
      inventory := new Slot[|SlotKinds|](i requires 0 <= i < |SlotKinds| => Slot(SlotKinds[i], 0));
      selected := Some(Grass);
      pos := Pos(5, 5);
      health := MaxVital;
      hunger := MaxVital;
      mode := Survival;
      showCraft := false;
      cells := [];
      new;
      assert inventory[..] == InitialInventory();
    }

    /** The mount effect: a fresh 12 by 16 world, drawn row by row, cell by cell. */
    method GenerateWorld(draws: Draws)
      requires Valid()
      modifies this`world, this`cells
      ensures Valid() && fresh(world)
      ensures State() == old(State()).(world := Generate(draws))
    {
      var w := new Block[Rows, Cols];
      var next: nat := 0;
      for y := 0 to Rows
        invariant next == DrawsBefore(draws, y * Cols)
        invariant forall j, i :: 0 <= j < y && 0 <= i < Cols ==>
          w[j, i] == Block(Some(GeneratedKind(draws, j, i)), i, j)
      {
        next := FillRow(w, y, draws, next);
      }
      world := w;
      cells := Generate(draws);
      StartWellFormed(draws);
    }

    /** The body of the inner loop: the depth band of row `y` picks the block, drawing as it goes. */
    static method DrawBlock(y: int, draws: Draws, start: nat) returns (m: Material, next: nat)
      ensures (m, next) == DrawCell(y, draws, start)
    {
      next := start;
      if y < 3 {
        m := Grass;
      } else if y < 6 {
        if draws(next) { m := Dirt; } else { m := Stone; }
        next := next + 1;
      } else if y < 8 {
        if draws(next) {
          m := Coal;
          next := next + 1;
        } else if draws(next + 1) {
          m := Iron;
          next := next + 2;
        } else {
          m := Stone;
          next := next + 2;
        }
      } else if y < 10 {
        if draws(next) {
          m := Gold;
          next := next + 1;
        } else if draws(next + 1) {
          m := Diamond;
          next := next + 2;
        } else {
          m := Stone;
          next := next + 2;
        }
      } else {
        m := Stone;
      }
    }

    /** One pass of the inner loop: the cells of row `y`, left to right. */
    static method FillRow(w: array2<Block>, y: nat, draws: Draws, start: nat) returns (next: nat)
      requires w.Length0 == Rows && w.Length1 == Cols && y < Rows
      requires start == DrawsBefore(draws, y * Cols)
      modifies w
      ensures next == DrawsBefore(draws, (y + 1) * Cols)
      ensures forall i :: 0 <= i < Cols ==> w[y, i] == Block(Some(GeneratedKind(draws, y, i)), i, y)
      ensures forall j, i :: 0 <= j < Rows && j != y && 0 <= i < Cols ==> w[j, i] == old(w[j, i])
    {
      next := start;
      for x := 0 to Cols
        invariant next == DrawsBefore(draws, y * Cols + x)
        invariant forall i :: 0 <= i < x ==> w[y, i] == Block(Some(GeneratedKind(draws, y, i)), i, y)
        invariant forall j, i :: 0 <= j < Rows && j != y && 0 <= i < Cols ==> w[j, i] == old(w[j, i])
      {
        DrawsBeforeStep(draws, y, x);
        var m: Material;
        m, next := DrawBlock(y, draws, next);
        assert m == GeneratedKind(draws, y, x);
        w[y, x] := Block(Some(m), x, y);
      }
      assert y * Cols + Cols == (y + 1) * Cols;
    }

    /** The inventory updater of `mineBlock`: `item.count++` on the slot found for `t`. */
    static method CreditSlot(inv: array<Slot>, t: Material)
      modifies inv
      ensures inv[..] == Credit(old(inv[..]), t)
    {
      var slot := FindSlot(inv[..], t);
      if slot.Some? {
        var i := slot.value;
        inv[i] := inv[i].(count := inv[i].count + 1);
      }
    }

    /** The inventory updater of `placeBlock`: `invItem.count--` while the count is positive. */
    static method DebitSlot(inv: array<Slot>, t: Material)
      modifies inv
      ensures inv[..] == Debit(old(inv[..]), t)
    {
      var slot := FindSlot(inv[..], t);
      if slot.Some? && inv[slot.value].count > 0 {
        var i := slot.value;
        inv[i] := inv[i].(count := inv[i].count - 1);
      }
    }

    /** `mineBlock(x, y)`. */
    method Mine(x: int, y: int)
      requires Valid()
      modifies world, inventory, this`hunger, this`cells
      ensures Valid()
      ensures State() == MineBlock(old(State()), x, y)
    {
      ghost var s0 := State();
      MinePreserves(s0, x, y);
      if 0 <= y < world.Length0 && 0 <= x < world.Length1 && world[y, x].kind.Some? {
        var t := world[y, x].kind.value;
        world[y, x] := world[y, x].(kind := None);
        cells := SetKind(cells, x, y, None);
        assert Mirrors();
        CreditSlot(inventory, t);
        if mode == Survival {
          hunger := Hungrier(hunger);
        }
        assert State() == MineBlock(s0, x, y);
      }
    }

    /** `placeBlock(x, y)`. */
    method Place(x: int, y: int)
      requires Valid()
      modifies world, inventory, this`cells
      ensures Valid()
      ensures State() == PlaceBlock(old(State()), x, y)
    {
      ghost var s0 := State();
      PlacePreserves(s0, x, y);
      if selected.None? {
        return;
      }
      var t := selected.value;
      var item := FindSlot(inventory[..], t);
      if mode == Survival && (item.None? || inventory[item.value].count == 0) {
        return;
      }
      if 0 <= y < world.Length0 && 0 <= x < world.Length1 {
        world[y, x] := world[y, x].(kind := Some(t));
        cells := SetKind(cells, x, y, Some(t));
        assert Mirrors();
        if mode == Survival {
          DebitSlot(inventory, t);
        }
        assert State() == PlaceBlock(s0, x, y);
      }
    }

    /** `movePlayer(dx, dy)`. */
    method Move(dx: int, dy: int)
      requires Valid()
      modifies this`pos
      ensures Valid()
      ensures State() == old(State()).(pos := MovePlayer(old(pos), dx, dy))
    {
      pos := MovePlayer(pos, dx, dy);
    }

    /** One firing of the survival interval; `before` is the hunger its closure captured. */
    method Tick()
      requires Valid()
      modifies this`hunger, this`health
      ensures Valid()
      ensures State() == VitalsTick(old(State()))
    {
      if mode == Survival {
        var before := hunger;
        hunger := Hungrier(hunger);
        if before == 0 {
          health := Max(0, health - 1);
        }
      }
    }

    /** The mode badge. */
    method ToggleMode()
      requires Valid()
      modifies this`mode
      ensures Valid()
      ensures State() == MinecraftSpec.ToggleMode(old(State()))
    {
      mode := if mode == Survival then Creative else Survival;
    }

    /** Clicking a rendered inventory slot. */
    method Select(i: nat)
      requires Valid() && i < inventory.Length
      modifies this`selected
      ensures Valid()
      ensures State() == SelectSlot(old(State()), i)
    {
      selected := Some(inventory[i].kind);
    }

    /** The `c` key. */
    method ToggleCraft()
      requires Valid()
      modifies this`showCraft
      ensures Valid()
      ensures State() == MinecraftSpec.ToggleCraft(old(State()))
    {
      showCraft := !showCraft;
    }

    /** The keydown handler, acting at the cursor. */
    method KeyDown(key: string)
      requires Valid()
      modifies world, inventory, this`pos, this`hunger, this`showCraft, this`cells
      ensures Valid()
      ensures State() == HandleKey(old(State()), key)
    {
      match KeyAction(key)
      case Move(dx, dy) => Move(dx, dy);
      case MineHere => Mine(pos.x, pos.y);
      case PlaceHere => Place(pos.x, pos.y);
      case CraftPanel => ToggleCraft();
      case Ignore =>
    }
  }
}
