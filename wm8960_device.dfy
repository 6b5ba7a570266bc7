/**
 * `_get_wm8960_device` of the WM8960-HAT edition of the speech-to-text
 * module: a linear search of the audio devices for the first one whose
 * lower-cased name contains "wm8960" and that has input channels. Any
 * exception, from the enumeration itself or from reading an entry, ends
 * the search with no device, and the stream then opens on the default
 * device.
 */
module Wm8960Device {
  import opened Wrappers
  import opened Text

  /**
   * One entry of `sd.query_devices()`. `Malformed` stands for an entry on
   * which reading `name` or `max_input_channels`, lower-casing or comparing
   * raises.
   */
  datatype DeviceInfo = DeviceInfo(name: string, maxInputChannels: int) | Malformed

  /** The result of `sd.query_devices()`: the device list, or an exception. */
  datatype DeviceQuery = Listed(devices: seq<DeviceInfo>) | QueryRaised

  const HatTag: string := "wm8960"

  /** The test of the loop body: the name matches in any case and the device can record. */
  predicate IsHat(d: DeviceInfo) {
    d.DeviceInfo? && Contains(Lower(d.name), HatTag) && d.maxInputChannels > 0
  }

  /**
   * `r` is the lookup's answer to `q`: the smallest index of a matching
   * device provided every entry before it could be read; `None` when the
   * enumeration raises, when an unreadable entry comes first, or when no
   * device matches.
   */
  predicate Chosen(q: DeviceQuery, r: Option<nat>) {
    match r
    case Some(i) =>
      && q.Listed? && i < |q.devices| && IsHat(q.devices[i])
      && forall j :: 0 <= j < i ==> q.devices[j].DeviceInfo? && !IsHat(q.devices[j])
    case None =>
      q.Listed? ==> forall i :: 0 <= i < |q.devices| && IsHat(q.devices[i]) ==>
        exists j :: 0 <= j < i && q.devices[j].Malformed?
  }

  /** The device index to open, or `None` for the default device. */
  method FindWm8960(q: DeviceQuery) returns (r: Option<nat>)
    ensures Chosen(q, r)
  {
    if q.QueryRaised? {
      return None;
    }
    var devices := q.devices;
    for i := 0 to |devices|
      invariant forall j :: 0 <= j < i ==> devices[j].DeviceInfo? && !IsHat(devices[j])
    {
      var dev := devices[i];
      if dev.Malformed? {
        return None;
      }
      if Contains(Lower(dev.name), HatTag) && dev.maxInputChannels > 0 {
        return Some(i);
      }
    }
    return None;
  }

  /** The answer is determined by the device list: at most one result satisfies `Chosen`. */
  lemma ChosenUnique(q: DeviceQuery, r1: Option<nat>, r2: Option<nat>)
    requires Chosen(q, r1) && Chosen(q, r2)
    ensures r1 == r2
  {
    if r1.Some? && r2.Some? {
      assert !(r1.value < r2.value) && !(r2.value < r1.value);
    }
  }

  /** With no matching device (or a failed enumeration) the default device is used. */
  lemma NoHatMeansDefault(q: DeviceQuery, r: Option<nat>)
    requires Chosen(q, r)
    requires q.Listed? ==> forall i :: 0 <= i < |q.devices| ==> !IsHat(q.devices[i])
    ensures r == None
  {
  }

  /** A device that matches by name but cannot record is never chosen. */
  lemma NoInputNeverChosen(d: DeviceInfo)
    requires d.DeviceInfo? && d.maxInputChannels <= 0
    ensures !IsHat(d)
  {
  }

  /**
   * Matching ignores case: a name with any spelling of "WM8960" (upper,
   * lower or mixed) at index `i` matches.
   */
  lemma {:induction false} MatchIgnoresCase(name: string, i: nat)
    requires i + 6 <= |name|
    requires forall k :: 0 <= k < 6 ==> LowerChar(name[i + k]) == HatTag[k]
    ensures Contains(Lower(name), HatTag)
  {
    var low := Lower(name);
    assert low[i..i + 6] == HatTag by {
      forall k | 0 <= k < 6
        ensures low[i..i + 6][k] == HatTag[k]
      {
        assert low[i + k] == LowerChar(name[i + k]);
      }
    }
    assert OccursAt(low, HatTag, i);
  }

  /**
   * A card whose name starts with the chip's name in capitals, as ALSA
   * names the Waveshare HAT ("WM8960-soundcard: …"), is recognised.
   */
  lemma CapitalisedNameMatches(rest: string, channels: int)
    requires channels > 0
    ensures IsHat(DeviceInfo("WM8960" + rest, channels))
  {
    var tag := "WM8960";
    assert forall k :: 0 <= k < 6 ==> (tag + rest)[k] == tag[k];
    assert tag[0] == 'W' && tag[1] == 'M' && tag[2] == '8' && tag[3] == '9' && tag[4] == '6' && tag[5] == '0';
    MatchIgnoresCase(tag + rest, 0);
  }
}
