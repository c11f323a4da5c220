/** The per-object user-data slots of the OpenAL sound system's samples and 3D objects, and
    its 3D-provider enumerator. */
module SoundSys {
  import opened Common

  /** The highest valid user-data slot index. */
  const MaxUserDataIndex: int := 7

  /** The sound system offers one 3D provider (OpenAL), announced under a DirectSound name. */
  const NumProviders: int := 1
  const ProviderName: string := "DirectSound Hardware"

  /** `U32` and `uintptr_t` (64-bit) arguments. */
  type U32 = x: int | 0 <= x < TwoTo32
  type UIntPtr = x: int | 0 <= x < 0x1_0000_0000_0000_0000

  /** An `S32` value. */
  predicate IsS32(v: int) { -0x8000_0000 <= v < 0x8000_0000 }

  /** Slot storage of one object: MaxUserDataIndex + 1 `S32` slots. */
  ghost predicate SlotsValid(slots: array<int>)
    reads slots
  {
    slots.Length == MaxUserDataIndex + 1 && forall i :: 0 <= i < slots.Length ==> IsS32(slots[i])
  }

  /** A sound sample's user data (the rest of a sample is not part of this model). */
  class CSample {
    var userData: array<int>

    ghost predicate Valid()
      reads this, userData
    {
      SlotsValid(userData)
    }

    /** The constructor clears every slot. */
    constructor()
      ensures Valid() && fresh(userData)
      ensures forall i :: 0 <= i < userData.Length ==> userData[i] == 0
    {
      userData := new int[MaxUserDataIndex + 1](_ => 0);
    }
  }

  /** A 3D sound object's user data (its position, velocity and orientation are not part of this model). */
  class I3DObject {
    var userData: array<int>

    ghost predicate Valid()
      reads this, userData
    {
      SlotsValid(userData)
    }

    /** The constructor clears every slot. */
    constructor()
      ensures Valid() && fresh(userData)
      ensures forall i :: 0 <= i < userData.Length ==> userData[i] == 0
    {
      userData := new int[MaxUserDataIndex + 1](_ => 0);
    }
  }

  /** Reading slot `index` of a handle: 0 for a null handle or an index past the last slot. */
  function GetSampleUserData(hS: CSample?, index: U32): (v: int)
    requires hS != null ==> hS.Valid()
    reads hS, if hS != null then {hS.userData} else {}
    ensures IsS32(v)
    ensures hS == null || index > MaxUserDataIndex ==> v == 0
  {
    if hS == null || index > MaxUserDataIndex then 0 else hS.userData[index]
  }

  /** Storing a pointer-sized value in slot `index`: it is truncated to `S32`; a null handle or
      an index past the last slot changes nothing. */
  method SetSampleUserData(hS: CSample?, index: U32, value: UIntPtr)
    requires hS != null ==> hS.Valid()
    modifies if hS != null then {hS.userData} else {}
    ensures hS != null ==> hS.Valid()
    ensures GetSampleUserData(hS, index) == if hS == null || index > MaxUserDataIndex then 0 else ToS32(value)
    ensures forall j: U32 :: j != index ==> GetSampleUserData(hS, j) == old(GetSampleUserData(hS, j))
    ensures hS != null && index > MaxUserDataIndex ==> hS.userData[..] == old(hS.userData[..])
  {
    if hS == null || index > MaxUserDataIndex {
      return;
    }
    hS.userData[index] := ToS32(value);
  }

  /** Reading slot `index` of a 3D object: 0 for a null handle or an index past the last slot. */
  function Get3DUserData(hObj: I3DObject?, index: U32): (v: int)
    requires hObj != null ==> hObj.Valid()
    reads hObj, if hObj != null then {hObj.userData} else {}
    ensures IsS32(v)
    ensures hObj == null || index > MaxUserDataIndex ==> v == 0
  {
    if hObj == null || index > MaxUserDataIndex then 0 else hObj.userData[index]
  }

  /** Storing a pointer-sized value in slot `index` of a 3D object, truncated to `S32`; a null
      handle or an index past the last slot changes nothing. */
  method Set3DUserData(hObj: I3DObject?, index: U32, value: UIntPtr)
    requires hObj != null ==> hObj.Valid()
    modifies if hObj != null then {hObj.userData} else {}
    ensures hObj != null ==> hObj.Valid()
    ensures Get3DUserData(hObj, index) == if hObj == null || index > MaxUserDataIndex then 0 else ToS32(value)
    ensures forall j: U32 :: j != index ==> Get3DUserData(hObj, j) == old(Get3DUserData(hObj, j))
    ensures hObj != null && index > MaxUserDataIndex ==> hObj.userData[..] == old(hObj.userData[..])
  {
    if hObj == null || index > MaxUserDataIndex {
      return;
    }
    hObj.userData[index] := ToS32(value);
  }

  /** The caller's view of one enumeration step: the cursor, the provider handle and the name
      (None for a null name pointer). */
  datatype Enumeration = Enumeration(cursor: int, dest: int, name: Option<string>)

  /** One call of the provider enumerator: the cursor always advances by one. At the end (the
      cursor equals NumProviders) it returns 0 and clears the name and the handle; at provider 0 it
      reports the one provider; for any other cursor it returns 1 and leaves name and handle as they
      were. */
  function Enumerate3DProviders(e: Enumeration): (r: (int, Enumeration))
    ensures r.1.cursor == e.cursor + 1
    ensures (r.0 == 0) <==> e.cursor == NumProviders
    ensures r.0 == 0 || r.0 == 1
    ensures r.0 == 0 ==> r.1.name == None && r.1.dest == 0
    ensures e.cursor == 0 ==> r.1.name == Some(ProviderName) && r.1.dest == 1
    ensures e.cursor != 0 && e.cursor != NumProviders ==> r.1.name == e.name && r.1.dest == e.dest
  {
    var next := e.cursor + 1;
    if e.cursor == NumProviders then (0, Enumeration(next, 0, None))
    else if e.cursor == 0 then (1, Enumeration(next, 1, Some(ProviderName)))
    else (1, e.(cursor := next))
  }

  /** The calls a caller makes, from cursor `e.cursor` on, until the enumerator returns 0 (at most
      `fuel` calls): the names it reported. */
  function ProvidersFrom(e: Enumeration, fuel: nat): (names: seq<Option<string>>)
    decreases fuel
  {
    if fuel == 0 then []
    else
      var (more, e') := Enumerate3DProviders(e);
      if more == 0 then [] else [e'.name] + ProvidersFrom(e', fuel - 1)
  }

  /** Enumerating from a zero cursor reports exactly the one provider, under its DirectSound name,
      whatever the caller's variables held, and then stops. */
  lemma EnumerateFromStart(dest: int, name: Option<string>, fuel: nat)
    requires fuel >= NumProviders + 1
    ensures ProvidersFrom(Enumeration(0, dest, name), fuel) == [Some(ProviderName)]
  {
    var (more, e1) := Enumerate3DProviders(Enumeration(0, dest, name));
    assert more == 1 && e1.cursor == 1;
    var (more2, e2) := Enumerate3DProviders(e1);
    assert more2 == 0;
  }
}
