/**
 * Key state queries over a key array indexed by GLFW key code. A code
 * outside the array makes the query fail (Java's
 * ArrayIndexOutOfBoundsException), modelled as None.
 */
module Keyboard {
  import opened Wrappers

  /** The key arrays hold 1024 entries. */
  const KeyCount: nat := 1024

  /** keys[key]: whether the key is held down. */
  function Pressed(keys: seq<bool>, key: int): (r: Option<bool>)
    ensures r.Some? <==> 0 <= key < |keys|
  {
    if 0 <= key < |keys| then Some(keys[key]) else None
  }

  /** !keys[key]. */
  function Released(keys: seq<bool>, key: int): (r: Option<bool>)
    ensures r.Some? <==> 0 <= key < |keys|
  {
    if 0 <= key < |keys| then Some(!keys[key]) else None
  }

  /** A key is released exactly when it is not pressed. */
  lemma ReleasedIsNotPressed(keys: seq<bool>, key: int)
    ensures Released(keys, key) == match Pressed(keys, key) case None => None case Some(p) => Some(!p)
  {
  }

  /** The loop of areKeysPressed: the flag starts true and is cleared by any
      released key; every key is looked up, so any key out of range fails. */
  function AllPressed(keys: seq<bool>, ks: seq<int>): Option<bool> {
    if |ks| == 0 then Some(true)
    else
      var allPressed :- AllPressed(keys, ks[..|ks| - 1]);
      var released :- Released(keys, ks[|ks| - 1]);
      Some(if released then false else allPressed)
  }

  /** The loop of areKeysReleased. */
  function AllReleased(keys: seq<bool>, ks: seq<int>): Option<bool> {
    if |ks| == 0 then Some(true)
    else
      var allReleased :- AllReleased(keys, ks[..|ks| - 1]);
      var pressed :- Pressed(keys, ks[|ks| - 1]);
      Some(if pressed then false else allReleased)
  }

  predicate InRange(keys: seq<bool>, ks: seq<int>) {
    forall i :: 0 <= i < |ks| ==> 0 <= ks[i] < |keys|
  }

  /** areKeysPressed fails exactly when a key is out of range, and otherwise
      holds exactly when every key is pressed (so for no keys at all). */
  lemma {:induction false} AllPressedMeans(keys: seq<bool>, ks: seq<int>)
    ensures AllPressed(keys, ks).Some? <==> InRange(keys, ks)
    ensures InRange(keys, ks) ==>
      (AllPressed(keys, ks).value <==> forall i :: 0 <= i < |ks| ==> keys[ks[i]])
  {
    if |ks| > 0 {
      var front := ks[..|ks| - 1];
      AllPressedMeans(keys, front);
      assert InRange(keys, ks) <==> InRange(keys, front) && 0 <= ks[|ks| - 1] < |keys| by {
        assert forall i :: 0 <= i < |front| ==> front[i] == ks[i];
      }
    }
  }

  /** areKeysReleased fails exactly when a key is out of range, and otherwise
      holds exactly when no key is pressed. */
  lemma {:induction false} AllReleasedMeans(keys: seq<bool>, ks: seq<int>)
    ensures AllReleased(keys, ks).Some? <==> InRange(keys, ks)
    ensures InRange(keys, ks) ==>
      (AllReleased(keys, ks).value <==> forall i :: 0 <= i < |ks| ==> !keys[ks[i]])
  {
    if |ks| > 0 {
      var front := ks[..|ks| - 1];
      AllReleasedMeans(keys, front);
      assert InRange(keys, ks) <==> InRange(keys, front) && 0 <= ks[|ks| - 1] < |keys| by {
        assert forall i :: 0 <= i < |front| ==> front[i] == ks[i];
      }
    }
  }

  /** areKeysPressed on an array; the array is only read. */
  method AreKeysPressed(keys: array<bool>, ks: seq<int>) returns (r: Option<bool>)
    ensures r == AllPressed(keys[..], ks)
  {
    var allPressed := true;
    var i := 0;
    while i < |ks|
      invariant 0 <= i <= |ks|
      invariant AllPressed(keys[..], ks[..i]) == Some(allPressed)
    {
      var key := ks[i];
      assert ks[..i + 1][..i] == ks[..i];
      if !(0 <= key < keys.Length) {
        AllPressedMeans(keys[..], ks);
        return None;
      }
      if !keys[key] {
        allPressed := false;
      }
      i := i + 1;
    }
    assert ks[..i] == ks;
    return Some(allPressed);
  }

  /** areKeysReleased on an array; the array is only read. */
  method AreKeysReleased(keys: array<bool>, ks: seq<int>) returns (r: Option<bool>)
    ensures r == AllReleased(keys[..], ks)
  {
    var allReleased := true;
    var i := 0;
    while i < |ks|
      invariant 0 <= i <= |ks|
      invariant AllReleased(keys[..], ks[..i]) == Some(allReleased)
    {
      var key := ks[i];
      assert ks[..i + 1][..i] == ks[..i];
      if !(0 <= key < keys.Length) {
        AllReleasedMeans(keys[..], ks);
        return None;
      }
      if keys[key] {
        allReleased := false;
      }
      i := i + 1;
    }
    assert ks[..i] == ks;
    return Some(allReleased);
  }
}
