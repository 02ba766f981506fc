/** The capacities of the daemon's two channels. */
module Channels {
  const OUTPUT_BUFFER: nat := 4096
  const ALERT_BUFFER: nat := 1024
}
