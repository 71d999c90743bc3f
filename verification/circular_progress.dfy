/** The skill-level colour rule of the circular progress ring
    (components/ui/CircularProgress.tsx); the ring geometry is not modelled. */
module CircularProgress {
  import opened Wrappers
  import opened Palette

  /** Band order from the lowest levels (purple) to the highest (green). */
  function Rank(c: Color): (r: nat)
    ensures r < 4
  {
    match c
    case Purple => 0
    case Cyan => 1
    case Blue => 2
    case Green => 3
  }

  /** The gradient stops and glow of a colour, from the `colorMap` table. */
  datatype ColorStops = ColorStops(from: string, to: string, glow: string)

  function Stops(c: Color): (r: ColorStops)
    ensures |r.from| == 7 && |r.to| == 7 && r.from[0] == '#' && r.to[0] == '#'
  {
    match c
    case Green => ColorStops("#10B981", "#34D399", "rgba(16, 185, 129, 0.3)")
    case Blue => ColorStops("#3B82F6", "#60A5FA", "rgba(59, 130, 246, 0.3)")
    case Cyan => ColorStops("#06B6D4", "#22D3EE", "rgba(6, 182, 212, 0.3)")
    case Purple => ColorStops("#8B5CF6", "#A78BFA", "rgba(139, 92, 246, 0.3)")
  }

  /** `getSkillColor`: 90 and above green, 80-89 blue, 70-79 cyan, below 70 purple. */
  function GetSkillColor(percentage: int): (r: Color)
    ensures r == Green <==> percentage >= 90
    ensures r == Blue <==> 80 <= percentage < 90
    ensures r == Cyan <==> 70 <= percentage < 80
    ensures r == Purple <==> percentage < 70
  {
    if percentage >= 90 then Green
    else if percentage >= 80 then Blue
    else if percentage >= 70 then Cyan
    else Purple
  }

  /** A higher level never lands in a lower band. */
  lemma GetSkillColorMonotone(a: int, b: int)
    requires a <= b
    ensures Rank(GetSkillColor(a)) <= Rank(GetSkillColor(b))
  {
  }

  /** `color || getSkillColor(percentage)`: an explicit colour prop wins. */
  function SelectedColor(color: Option<Color>, percentage: int): (r: Color)
    ensures color.Some? ==> r == color.value
    ensures color.None? ==> r == GetSkillColor(percentage)
  {
    color.GetOr(GetSkillColor(percentage))
  }

  /** `colorMap[selectedColor]`: the stops the ring is drawn with. Without a
      colour prop the level's band picks them. */
  function RingStops(color: Option<Color>, percentage: int): (r: ColorStops)
    ensures color.Some? ==> r == Stops(color.value)
    ensures color.None? && percentage >= 90 ==> r.from == "#10B981" && r.to == "#34D399"
    ensures color.None? && 80 <= percentage < 90 ==> r.from == "#3B82F6" && r.to == "#60A5FA"
    ensures color.None? && 70 <= percentage < 80 ==> r.from == "#06B6D4" && r.to == "#22D3EE"
    ensures color.None? && percentage < 70 ==> r.from == "#8B5CF6" && r.to == "#A78BFA"
  {
    Stops(SelectedColor(color, percentage))
  }
}
