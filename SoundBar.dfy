/** The header's sound control: an icon button that previews a track on hover,
    locks it on click, a label pill that opens a track menu, and the tooltip
    derived from the state. The audio element's `play()` is an operation that the
    browser may reject; its outcome is the parameter `accepted`. */
module SoundBar {
  import opened Text

  datatype Track = Track(id: string, name: string, pillLabel: string, src: string, color: string)

  const Tracks: seq<Track> := [
    Track("focus", "Global Groove", "Global Groove \U{1F30D}", "/sounds/song2.mp3", "#60a5fa"),
    Track("lofi", "Focus Mode", "Focus Mode \U{2728}", "/sounds/song1.mp3", "#a78bfa"),
    Track("chill", "Ritmo Caliente", "Ritmo Caliente \U{1F525}", "/sounds/song3.mp3", "#f87171")
  ]

  /** `TRACKS.find(...) || TRACKS[0]`: the track with that id, or the first one. */
  function PickedTrack(id: string): (t: Track)
    ensures t in Tracks
    ensures t.id == id || t == Tracks[0]
  {
    match Find(Tracks, (t: Track) => t.id == id)
    case Some(k) => Tracks[k]
    case None => Tracks[0]
  }

  /** The track ids are distinct, so an id names one track. */
  lemma TrackIdsDistinct()
    ensures forall j, k :: 0 <= j < k < |Tracks| ==> Tracks[j].id != Tracks[k].id
  {
  }

  /** Picking a listed id gives that very track; any other id gives the first. */
  lemma PickedTrackExact(id: string, k: nat)
    ensures k < |Tracks| && Tracks[k].id == id ==> PickedTrack(id) == Tracks[k]
    ensures (forall j :: 0 <= j < |Tracks| ==> Tracks[j].id != id) ==> PickedTrack(id) == Tracks[0]
  {
    TrackIdsDistinct();
  }

  /** In the open menu, the entry marked active is exactly the current track's. */
  lemma MenuMarksOne(track: Track)
    requires track in Tracks
    ensures exists k :: 0 <= k < |Tracks| && Tracks[k] == track
    ensures forall j, k :: (0 <= j < |Tracks| && 0 <= k < |Tracks|
                            && Tracks[j].id == track.id && Tracks[k].id == track.id) ==> j == k
  {
    TrackIdsDistinct();
  }

  const TooltipNeedsGesture: string := "Click once to enable audio \U{1F3B5}"
  const TooltipLocked: string := "Vibes locked \U{2014} click to stop \U{1F512}"
  const TooltipPlaying: string := "Vibes on \U{2014} click to lock \U{1F3B5}"
  const TooltipIdle: string := "Turn on vibes \U{1F3B5}"

  /** The tooltip: the first condition that holds, in the order not unlocked,
      locked, playing, anything else. */
  function Tooltip(unlocked: bool, locked: bool, playing: bool): (tip: string)
    ensures tip == TooltipNeedsGesture <==> !unlocked
    ensures tip == TooltipLocked <==> unlocked && locked
    ensures tip == TooltipPlaying <==> unlocked && !locked && playing
    ensures tip == TooltipIdle <==> unlocked && !locked && !playing
  {
    if !unlocked then TooltipNeedsGesture
    else if locked then TooltipLocked
    else if playing then TooltipPlaying
    else TooltipIdle
  }

  class SoundBar {
    var track: Track
    var playing: bool
    var locked: bool
    var hovering: bool
    var menuOpen: bool
    var hint: bool
    var unlocked: bool

    /** The current track is one of the tracks, and a locked control has always
        been unlocked first: both handlers that lock also unlock. */
    ghost predicate Valid()
      reads this
    {
      track in Tracks && (locked ==> unlocked)
    }

    constructor ()
      ensures Valid()
      ensures track == Tracks[0]
      ensures !playing && !locked && !hovering && !menuOpen && !hint && !unlocked
    {
      track := Tracks[0];
      playing := false;
      locked := false;
      hovering := false;
      menuOpen := false;
      hint := false;
      unlocked := false;
    }

    /** A locked control has been unlocked, so it always says it is locked. */
    function CurrentTooltip(): (tip: string)
      reads this
      requires Valid()
      ensures locked ==> tip == TooltipLocked
      ensures unlocked && !locked && playing ==> tip == TooltipPlaying
    {
      Tooltip(unlocked, locked, playing)
    }

    /** The first mouse, key or touch gesture anywhere on the page. */
    method Unlock()
      requires Valid()
      modifies this`unlocked
      ensures Valid() && unlocked
    {
      unlocked := true;
    }

    /** `play()`: only an accepted `el.play()` sets `playing`; a rejected one
        leaves it as it was. */
    method Play(accepted: bool)
      requires Valid()
      modifies this`playing
      ensures Valid()
      ensures playing == (old(playing) || accepted)
      ensures accepted ==> playing
      ensures !accepted ==> playing == old(playing)
    {
      if accepted {
        playing := true;
      }
    }

    /** `pause()` always stops. */
    method Pause()
      requires Valid()
      modifies this`playing
      ensures Valid() && !playing
    {
      playing := false;
    }

    /** Mouse enters the icon button: preview only when unlocked and not locked. */
    method OnEnter(accepted: bool)
      requires Valid()
      modifies this`hovering, this`playing
      ensures Valid() && hovering
      ensures unlocked && !locked ==> playing == (old(playing) || accepted)
      ensures !(unlocked && !locked) ==> playing == old(playing)
      ensures locked ==> playing == old(playing)
    {
      hovering := true;
      if unlocked && !locked {
        Play(accepted);
      }
    }

    /** Mouse leaves the icon button: stop the preview unless locked. */
    method OnLeave()
      requires Valid()
      modifies this`hovering, this`playing
      ensures Valid() && !hovering
      ensures unlocked && !locked ==> !playing
      ensures !(unlocked && !locked) ==> playing == old(playing)
      ensures locked ==> playing == old(playing)
    {
      hovering := false;
      if unlocked && !locked {
        Pause();
      }
    }

    /** Click on the icon button: unlock if needed, then flip the lock; unlocking
        the lock pauses, locking plays. */
    method OnToggleLock(accepted: bool)
      requires Valid()
      modifies this`unlocked, this`locked, this`playing
      ensures Valid()
      ensures unlocked && locked == !old(locked)
      ensures old(locked) ==> !playing
      ensures !old(locked) ==> playing == (old(playing) || accepted)
    {
      if !unlocked {
        unlocked := true;
      }
      if locked {
        locked := false;
        Pause();
      } else {
        locked := true;
        Play(accepted);
      }
    }

    /** Click on the label pill. */
    method ToggleMenu()
      requires Valid()
      modifies this`menuOpen
      ensures Valid() && menuOpen == !old(menuOpen)
    {
      menuOpen := !menuOpen;
    }

    /** A mouse-down or touch-start on the document: closes the open menu when it
        lands outside the control; never opens it. */
    method OnDocumentPress(insideWrapper: bool)
      requires Valid()
      modifies this`menuOpen
      ensures Valid()
      ensures menuOpen == (old(menuOpen) && insideWrapper)
    {
      if menuOpen && !insideWrapper {
        menuOpen := false;
      }
    }

    /** A key press on the document: Escape closes the open menu; never opens it. */
    method OnKeyDown(key: string)
      requires Valid()
      modifies this`menuOpen
      ensures Valid()
      ensures menuOpen == (old(menuOpen) && key != "Escape")
    {
      if menuOpen && key == "Escape" {
        menuOpen := false;
      }
    }

    /** A menu entry: stop, switch track, lock, close the menu and unlock. The
        `play()` that follows one animation frame later is a separate call of
        `Play`. */
    method OnPickTrack(id: string)
      requires Valid()
      modifies this`playing, this`track, this`locked, this`menuOpen, this`unlocked
      ensures Valid()
      ensures track == PickedTrack(id)
      ensures !playing && locked && !menuOpen && unlocked
    {
      var next := PickedTrack(id);
      Pause();
      track := next;
      locked := true;
      menuOpen := false;
      if !unlocked {
        unlocked := true;
      }
    }
  }
}
