/** Text put together from parts. */
module Strings {

  /** `separator.join(parts)` */
  function JoinWith(separator: char, parts: seq<string>): string {
    if parts == [] then "" else if |parts| == 1 then parts[0] else parts[0] + [separator] + JoinWith(separator, parts[1..])
  }
}
