/**
 * The loading refresh task: while a branch's commits are still loading it
 * asks for a redraw on every tick, and stopping it asks for one last redraw.
 * The ticker and the goroutine behind it are reduced to a running flag; the
 * display channel is reduced to a count of the redraws requested on it.
 */
module Refresh {

  class DisplayChannel {
    var sent: nat

    constructor ()
      ensures sent == 0
    {
      sent := 0;
    }

    /** `displayCh <- true`. */
    method Send()
      modifies this
      ensures sent == old(sent) + 1
    {
      sent := sent + 1;
    }
  }

  class RefreshTask {
    const refreshRateMs: nat
    const display: DisplayChannel
    var running: bool  // the source's `ticker != nil`

    constructor (refreshRateMs: nat, display: DisplayChannel)
      ensures this.refreshRateMs == refreshRateMs && this.display == display
      ensures !running
    {
      this.refreshRateMs := refreshRateMs;
      this.display := display;
      running := false;
    }

    /** Creates the ticker and starts the loop that forwards its ticks. */
    method Start()
      modifies this
      ensures running
    {
      running := true;
    }

    /** One tick of a running task's ticker: the loop requests a redraw. */
    method Tick()
      requires running
      modifies display
      ensures display.sent == old(display.sent) + 1
    {
      display.Send();
    }

    /**
     * Stops the ticker and cancels the loop, which requests one final redraw
     * as it exits; on a task that is not running it does nothing.
     */
    method Stop()
      modifies this, display
      ensures !running
      ensures display.sent == old(display.sent) + (if old(running) then 1 else 0)
    {
      if running {
        running := false;
        display.Send();
      }
    }
  }
}
