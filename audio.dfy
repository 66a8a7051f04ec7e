/**
 * The relaxation-music controls (script.js:301-332): the play and pause
 * buttons relabel themselves, and the volume button flips the player's
 * `muted` flag and shows an icon and a label that match it.
 */
module Audio {

  /** "Playing" and "Stopped". */
  const PlayingLabel := "Նվագարկում է"
  const PausedLabel := "Կանգնեցված է"
  const SoundOnIcon := "fa-volume-up"
  const SoundOffIcon := "fa-volume-mute"
  /** "Sound is on" and "Sound is off". */
  const SoundOnLabel := "Ձայնը միացված է"
  const SoundOffLabel := "Ձայնը անջատված է"

  /** The player and its three buttons, on a page that has all of them. */
  class AudioControls {
    /** The player's `muted` property. */
    var muted: bool
    var playLabel: string
    var pauseLabel: string
    /** The icon class written into the volume button. */
    var volumeIcon: string
    var volumeLabel: string

    /** The volume button shows the player's sound state. */
    predicate Indicated()
      reads this
    {
      && volumeIcon == (if muted then SoundOffIcon else SoundOnIcon)
      && volumeLabel == (if muted then SoundOffLabel else SoundOnLabel)
    }

    constructor (muted: bool, volumeIcon: string, volumeLabel: string)
      ensures this.muted == muted && this.volumeIcon == volumeIcon && this.volumeLabel == volumeLabel
      ensures playLabel == "" && pauseLabel == ""
    {
      this.muted := muted;
      this.volumeIcon := volumeIcon;
      this.volumeLabel := volumeLabel;
      playLabel := "";
      pauseLabel := "";
    }

    /** A click on the play button (script.js:308-311); starting the player itself is not modelled. */
    method ClickPlay()
      modifies this`playLabel
      ensures playLabel == PlayingLabel
    {
      playLabel := PlayingLabel;
    }

    /** A click on the pause button (script.js:313-316); pausing the player itself is not modelled. */
    method ClickPause()
      modifies this`pauseLabel
      ensures pauseLabel == PausedLabel
    {
      pauseLabel := PausedLabel;
    }

    /**
     * A click on the volume button (script.js:319-329): the flag flips and
     * the button then shows it, whatever it showed before.
     */
    method ClickVolume()
      modifies this`muted, this`volumeIcon, this`volumeLabel
      ensures muted == !old(muted)
      ensures Indicated()
    {
      if muted {
        muted := false;
        volumeIcon := SoundOnIcon;
        volumeLabel := SoundOnLabel;
      } else {
        muted := true;
        volumeIcon := SoundOffIcon;
        volumeLabel := SoundOffLabel;
      }
    }
  }
}
