/**
 * The game's keyboard handling: the GLFW key callback records presses and
 * releases in the game's own key array, asks for a screenshot on F2 and
 * toggles the renderer's wireframe mode on F3.
 */
module Game {
  import opened Wrappers
  import opened Keyboard
  import opened Rendering

  /** GLFW action and key codes. */
  const Release: int := 0
  const Press: int := 1
  const Repeat: int := 2
  const KeyF2: int := 291
  const KeyF3: int := 292
  const KeyUnknown: int := -1

  /** keys[key] = ... with key outside the array throws. */
  datatype KeyError = KeyOutOfRange(key: int)

  class Game {
    const keys: array<bool>
    var renderer: MasterRenderer?

    predicate Valid()
      reads this
    {
      keys.Length == KeyCount
    }

    /** The key array, all keys up, and the renderer once there is one. */
    constructor (renderer: MasterRenderer?)
      ensures Valid() && fresh(keys)
      ensures forall i :: 0 <= i < keys.Length ==> !keys[i]
      ensures this.renderer == renderer
    {
      keys := new bool[KeyCount](_ => false);
      this.renderer := renderer;
    }

    /** The key callback. A press sets the key, a release clears it, any
        other action (a repeat) changes nothing. Ok(true) asks for a
        screenshot (a press of F2); a key outside the array fails before
        anything else happens. */
    method KeyCallback(key: int, action: int) returns (r: Result<bool, KeyError>)
      requires Valid()
      modifies keys, renderer
      ensures action == Press ==>
        if 0 <= key < keys.Length
        then keys[..] == old(keys[..])[key := true] && r == Ok(key == KeyF2)
        else keys[..] == old(keys[..]) && r == Err(KeyOutOfRange(key))
      ensures action == Release ==>
        if 0 <= key < keys.Length
        then keys[..] == old(keys[..])[key := false] && r == Ok(false)
        else keys[..] == old(keys[..]) && r == Err(KeyOutOfRange(key))
      ensures action != Press && action != Release ==> keys[..] == old(keys[..]) && r == Ok(false)
      ensures renderer != null ==>
        renderer.wireframeMode == (if action == Press && key == KeyF3 then !old(renderer.wireframeMode)
                                   else old(renderer.wireframeMode))
        && renderer.entities == old(renderer.entities) && renderer.terrains == old(renderer.terrains)
    {
      if action == Press {
        if !(0 <= key < keys.Length) {
          return Err(KeyOutOfRange(key));
        }
        keys[key] := true;
        if key == KeyF3 {
          if renderer != null {
            var mode := renderer.IsWireframeMode();
            renderer.SetWireframeMode(!mode);
          }
        }
        return Ok(key == KeyF2);
      } else if action == Release {
        if !(0 <= key < keys.Length) {
          return Err(KeyOutOfRange(key));
        }
        keys[key] := false;
      }
      return Ok(false);
    }

    function IsKeyPressed(key: int): (r: Option<bool>)
      reads keys
      ensures r == Pressed(keys[..], key)
    {
      if 0 <= key < keys.Length then Some(keys[key]) else None
    }

    function IsKeyReleased(key: int): (r: Option<bool>)
      reads keys
      ensures r == Released(keys[..], key)
    {
      if 0 <= key < keys.Length then Some(!keys[key]) else None
    }

    method AreKeysPressed(ks: seq<int>) returns (r: Option<bool>)
      ensures r == AllPressed(keys[..], ks)
    {
      r := Keyboard.AreKeysPressed(keys, ks);
    }

    method AreKeysReleased(ks: seq<int>) returns (r: Option<bool>)
      ensures r == AllReleased(keys[..], ks)
    {
      r := Keyboard.AreKeysReleased(keys, ks);
    }
  }

  /** An unknown key (GLFW reports -1) makes the callback fail on a press. */
  lemma UnknownKeyIsOutOfRange(keys: seq<bool>)
    requires |keys| == KeyCount
    ensures Pressed(keys, KeyUnknown) == None
    ensures 0 <= KeyF2 < KeyCount && 0 <= KeyF3 < KeyCount
  {
  }
}
