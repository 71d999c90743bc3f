/** The four accent colours the components pass to their glow cards and
    progress rings ("blue", "purple", "cyan", "green"). */
module Palette {
  datatype Color = Blue | Purple | Cyan | Green
}
