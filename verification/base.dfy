/** Small helpers shared by the other modules: an option type, `size_t` arithmetic where
    the program relies on its wrap-around, ASCII case folding as `std::tolower` does it in
    the C locale, and single-character string edits as `std::string` performs them. */
module Base {

  datatype Option<T> = None | Some(value: T) {
    function GetOr(default: T): T {
      if Some? then value else default
    }
  }

  /** The largest `size_t` value on a 64-bit target. */
  const SIZE_MAX: nat := 0xFFFF_FFFF_FFFF_FFFF

  /** `n - 1` evaluated in `size_t`: zero wraps round to SIZE_MAX. */
  function SizeMinusOne(n: nat): nat {
    if n == 0 then SIZE_MAX else n - 1
  }

  /** `std::tolower` in the C locale. */
  function ToLower(c: char): char {
    if 'A' <= c <= 'Z' then (c as int + 32) as char else c
  }

  /** `s.insert(pos, 1, c)` for a position inside the string. */
  function InsertAt(s: string, pos: nat, c: char): (r: string)
    requires pos <= |s|
    ensures |r| == |s| + 1 && r[pos] == c
  {
    s[..pos] + [c] + s[pos..]
  }

  /** `s.erase(pos, 1)` for a position inside the string. */
  function EraseAt(s: string, pos: nat): (r: string)
    requires pos < |s|
    ensures |r| == |s| - 1
  {
    s[..pos] + s[pos + 1..]
  }

  /** All strings of `ss`, one after the other. */
  function Concat(ss: seq<string>): string {
    if ss == [] then [] else ss[0] + Concat(ss[1..])
  }
}
