/**
 * The key loops of the wizard screens, as functions of the keys `getch`
 * returns: the distro menu, the add-on toggles and the privacy policy pager.
 * A loop that runs out of keys is still waiting for the next one.
 */
module Screens {

  /** Key codes as curses reports them. */
  const KeyDown: int := 258
  const KeyUp: int := 259
  const Newline: int := 10
  const CarriageReturn: int := 13
  const Space: int := 32
  const LowerQ: int := 113
  const UpperQ: int := 81

  /** How a screen's loop ended: ENTER (or SPACE on the policy), q or Q, or
      not yet. */
  datatype Exit = Confirmed | Cancelled | Pending

  /** The distro menu, in the order it is shown. */
  const DistroMenu: seq<string> := ["Arch Linux / Manjaro", "Debian / Ubuntu", "Fedora", "openSUSE", "Other (Generic)"]

  datatype MenuRun = MenuRun(exit: Exit, selected: int)

  /** The distro screen's loop from cursor `selected` over an `n`-entry menu;
      the cursor never leaves the menu. */
  function DistroRun(n: int, selected: int, keys: seq<int>): (r: MenuRun)
    ensures 0 <= selected < n ==> 0 <= r.selected < n
    decreases |keys|
  {
    if keys == [] then MenuRun(Pending, selected)
    else
      var key := keys[0];
      if key == KeyUp && selected > 0 then DistroRun(n, selected - 1, keys[1..])
      else if key == KeyDown && selected < n - 1 then DistroRun(n, selected + 1, keys[1..])
      else if key == Newline then MenuRun(Confirmed, selected)
      else if key == LowerQ || key == UpperQ then MenuRun(Cancelled, selected)
      else DistroRun(n, selected, keys[1..])
  }

  function Repeat(key: int, count: nat): (r: seq<int>)
    ensures |r| == count && forall i | 0 <= i < count :: r[i] == key
  {
    if count == 0 then [] else [key] + Repeat(key, count - 1)
  }

  /** `k` presses of DOWN move the cursor `k` entries down while there is room. */
  lemma {:induction false} DistroDownMoves(n: int, selected: int, k: nat, rest: seq<int>)
    requires 0 <= selected && selected + k < n
    ensures DistroRun(n, selected, Repeat(KeyDown, k) + rest) == DistroRun(n, selected + k, rest)
    decreases k
  {
    if k > 0 {
      assert (Repeat(KeyDown, k) + rest)[0] == KeyDown;
      assert (Repeat(KeyDown, k) + rest)[1..] == Repeat(KeyDown, k - 1) + rest;
      var keys := Repeat(KeyDown, k) + rest;
      assert DistroRun(n, selected, keys) == DistroRun(n, selected + 1, keys[1..]);
      DistroDownMoves(n, selected + 1, k - 1, rest);
    } else {
      assert Repeat(KeyDown, k) + rest == rest;
    }
  }

  /** Every entry of the menu can be chosen: DOWN `i` times, then ENTER. */
  lemma EveryDistroSelectable(n: int, i: nat)
    requires i < n
    ensures DistroRun(n, 0, Repeat(KeyDown, i) + [Newline]) == MenuRun(Confirmed, i)
  {
    DistroDownMoves(n, 0, i, [Newline]);
  }

  /** The distro screen confirms on '\n' only; a carriage return is ignored. */
  lemma DistroIgnoresCarriageReturn(n: int, selected: int, keys: seq<int>)
    ensures DistroRun(n, selected, [CarriageReturn] + keys) == DistroRun(n, selected, keys)
  {
    assert ([CarriageReturn] + keys)[1..] == keys;
  }

  /** The add-on options' initial states: the application (locked), the
      WebKit patches, the monitor service. */
  const InitialOptions: seq<bool> := [true, true, false]

  datatype AddonsState = AddonsState(exit: Exit, selected: int, states: seq<bool>)

  /** The add-on screen's loop; SPACE flips the highlighted option unless it
      is the first. The cursor stays on an option, there are as many states as
      options, and the first option keeps its state whatever is pressed. */
  function AddonsRun(selected: int, states: seq<bool>, keys: seq<int>): (r: AddonsState)
    requires 0 <= selected < |states|
    ensures 0 <= r.selected < |r.states| && |r.states| == |states| && r.states[0] == states[0]
    decreases |keys|
  {
    if keys == [] then AddonsState(Pending, selected, states)
    else
      var key := keys[0];
      if key == KeyUp && selected > 0 then AddonsRun(selected - 1, states, keys[1..])
      else if key == KeyDown && selected < |states| - 1 then AddonsRun(selected + 1, states, keys[1..])
      else if key == Space then
        AddonsRun(selected, if selected != 0 then states[selected := !states[selected]] else states, keys[1..])
      else if key == Newline || key == CarriageReturn then AddonsState(Confirmed, selected, states)
      else if key == LowerQ || key == UpperQ then AddonsState(Cancelled, selected, states)
      else AddonsRun(selected, states, keys[1..])
  }

  /** Pressing SPACE twice leaves every option as it was. */
  lemma AddonsToggleTwice(selected: int, states: seq<bool>, keys: seq<int>)
    requires 0 <= selected < |states|
    ensures AddonsRun(selected, states, [Space, Space] + keys) == AddonsRun(selected, states, keys)
  {
    var once := if selected != 0 then states[selected := !states[selected]] else states;
    var twice := if selected != 0 then once[selected := !once[selected]] else once;
    assert twice == states;
    assert ([Space, Space] + keys)[1..] == [Space] + keys;
    assert ([Space] + keys)[1..] == keys;
  }

  /** The keys that choose `patches` and `monitor` from the initial states. */
  function AddonsChoice(patches: bool, monitor: bool): seq<int>
  {
    [KeyDown] + (if patches then [] else [Space]) + [KeyDown] + (if monitor then [Space] else []) + [Newline]
  }

  /** Every combination of the two optional components can be confirmed. */
  lemma EveryAddonChoiceReachable(patches: bool, monitor: bool)
    ensures AddonsRun(0, InitialOptions, AddonsChoice(patches, monitor)) ==
      AddonsState(Confirmed, 2, [true, patches, monitor])
  {
    var keys := AddonsChoice(patches, monitor);
    var s1 := if patches then InitialOptions else InitialOptions[1 := false];
    var k1 := keys[1..];
    assert AddonsRun(0, InitialOptions, keys) == AddonsRun(1, InitialOptions, k1);
    var k2 := if patches then k1 else k1[1..];
    assert AddonsRun(1, InitialOptions, k1) == AddonsRun(1, s1, k2);
    assert k2[0] == KeyDown;
    var k3 := k2[1..];
    assert AddonsRun(1, s1, k2) == AddonsRun(2, s1, k3);
    var s2 := if monitor then s1[2 := true] else s1;
    var k4 := if monitor then k3[1..] else k3;
    assert AddonsRun(2, s1, k3) == AddonsRun(2, s2, k4);
    assert k4 == [Newline];
    assert s2 == [true, patches, monitor];
  }

  /** The policy text has 45 entries: the literals at main.py lines 396 and
      397 have no comma between them and form one entry. */
  const PolicyLength: int := 45

  /** Lines of the policy shown at once: `box_height - 4` with
      `box_height = min(20, rows - 4)`. */
  function PolicyWindow(rows: int): (w: int)
    ensures w <= 16
  {
    (if 20 <= rows - 4 then 20 else rows - 4) - 4
  }

  datatype PolicyState = PolicyState(exit: Exit, pos: int, hasRead: bool)

  /** The policy pager over `total` lines, `window` at a time; reaching the
      last page sets `has_read`, and SPACE leaves only once it is set. */
  function PolicyRun(total: int, window: int, pos: int, hasRead: bool, keys: seq<int>): (r: PolicyState)
    ensures hasRead ==> r.hasRead
    ensures r.exit == Confirmed ==> r.hasRead
    decreases |keys|
  {
    if keys == [] then PolicyState(Pending, pos, hasRead)
    else
      var key := keys[0];
      if key == KeyDown && pos < total - window then
        PolicyRun(total, window, pos + 1, hasRead || pos + 1 >= total - window, keys[1..])
      else if key == KeyUp && pos > 0 then PolicyRun(total, window, pos - 1, hasRead, keys[1..])
      else if key == Space && hasRead then PolicyState(Confirmed, pos, hasRead)
      else if key == LowerQ || key == UpperQ then PolicyState(Cancelled, pos, hasRead)
      else PolicyRun(total, window, pos, hasRead, keys[1..])
  }

  /** The last scroll position. */
  function LastPos(total: int, window: int): int
  {
    if total - window > 0 then total - window else 0
  }

  /** The scroll position stays within `[0, total - window]` (just 0 when the
      whole text fits), `has_read` is never cleared, a SPACE that ends the
      loop had `has_read` set, and at the last position `has_read` holds. */
  lemma {:induction false} PolicyInvariant(total: int, window: int, pos: int, hasRead: bool, keys: seq<int>)
    requires 0 <= pos <= LastPos(total, window)
    requires pos == total - window > 0 ==> hasRead
    ensures var r := PolicyRun(total, window, pos, hasRead, keys);
      && 0 <= r.pos <= LastPos(total, window)
      && (hasRead ==> r.hasRead)
      && (r.exit == Confirmed ==> r.hasRead)
      && (r.pos == total - window > 0 ==> r.hasRead)
    decreases |keys|
  {
    if keys != [] {
      var key := keys[0];
      if key == KeyDown && pos < total - window {
        PolicyInvariant(total, window, pos + 1, hasRead || pos + 1 >= total - window, keys[1..]);
      } else if key == KeyUp && pos > 0 {
        PolicyInvariant(total, window, pos - 1, hasRead, keys[1..]);
      } else if !(key == Space && hasRead) && key != LowerQ && key != UpperQ {
        PolicyInvariant(total, window, pos, hasRead, keys[1..]);
      }
    }
  }

  /** When the text fits in the window the position never moves and
      `has_read` is never set, so the policy cannot be accepted. */
  lemma {:induction false} PolicyFitsNeverRead(total: int, window: int, keys: seq<int>)
    requires total <= window
    ensures var r := PolicyRun(total, window, 0, false, keys);
      r.exit != Confirmed && r.pos == 0 && !r.hasRead
    decreases |keys|
  {
    if keys != [] {
      var key := keys[0];
      if key != LowerQ && key != UpperQ {
        PolicyFitsNeverRead(total, window, keys[1..]);
      }
    }
  }

  /** Scrolling down `k` lines from `pos` while there is room. */
  lemma {:induction false} PolicyDownMoves(total: int, window: int, pos: int, hasRead: bool, k: nat, rest: seq<int>)
    requires 0 <= pos && pos + k <= total - window
    ensures PolicyRun(total, window, pos, hasRead, Repeat(KeyDown, k) + rest) ==
      PolicyRun(total, window, pos + k, hasRead || (k > 0 && pos + k >= total - window), rest)
    decreases k
  {
    if k > 0 {
      assert (Repeat(KeyDown, k) + rest)[0] == KeyDown;
      assert (Repeat(KeyDown, k) + rest)[1..] == Repeat(KeyDown, k - 1) + rest;
      var keys := Repeat(KeyDown, k) + rest;
      assert PolicyRun(total, window, pos, hasRead, keys) ==
        PolicyRun(total, window, pos + 1, hasRead || pos + 1 >= total - window, keys[1..]);
      PolicyDownMoves(total, window, pos + 1, hasRead || pos + 1 >= total - window, k - 1, rest);
    } else {
      assert Repeat(KeyDown, k) + rest == rest;
    }
  }

  /** The policy can be accepted exactly when it is longer than the window:
      scroll to the end, then press SPACE. */
  lemma PolicyAcceptable(total: int, window: int)
    ensures (exists keys :: PolicyRun(total, window, 0, false, keys).exit == Confirmed) <==> total > window
  {
    if total > window {
      var keys := Repeat(KeyDown, total - window) + [Space];
      PolicyDownMoves(total, window, 0, false, total - window, [Space]);
      assert PolicyRun(total, window, 0, false, keys).exit == Confirmed;
    } else {
      forall keys ensures PolicyRun(total, window, 0, false, keys).exit != Confirmed {
        PolicyFitsNeverRead(total, window, keys);
      }
    }
  }

  /** The installer's policy is always longer than its window, whatever the
      terminal height, so it can always be accepted. */
  lemma InstallerPolicyAcceptable(rows: int)
    ensures exists keys :: PolicyRun(PolicyLength, PolicyWindow(rows), 0, false, keys).exit == Confirmed
  {
    PolicyAcceptable(PolicyLength, PolicyWindow(rows));
  }
}
