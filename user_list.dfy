/**
 * The two helpers of the user list: the avatar initials of a username and the
 * choice of the "last seen" label. Times are milliseconds; the formatting of a
 * time or a date is left abstract in the label.
 */
module UserList {
  import opened Wrappers
  import opened Models

  /** `s.split(sep)`: the maximal pieces between separators, empty pieces included. */
  function Split(s: string, sep: char): (r: seq<string>)
    ensures |r| >= 1
    ensures forall i :: 0 <= i < |r| ==> sep !in r[i]
  {
    if s == [] then [""]
    else if s[0] == sep then [""] + Split(s[1..], sep)
    else
      var rest := Split(s[1..], sep);
      [[s[0]] + rest[0]] + rest[1..]
  }

  /** `ws.join(sep)`. */
  function Join(ws: seq<string>, sep: char): (r: string)
    requires |ws| >= 1
    ensures |ws| == 1 ==> r == ws[0]
    // the first piece comes first, followed by a separator when more pieces follow
    ensures |r| >= |ws[0]| && r[..|ws[0]|] == ws[0]
    ensures |ws| > 1 ==> |r| > |ws[0]| && r[|ws[0]|] == sep
  {
    if |ws| == 1 then ws[0] else ws[0] + [sep] + Join(ws[1..], sep)
  }

  /** Joining the pieces of a split with the same separator gives back the string. */
  lemma {:induction false} JoinSplit(s: string, sep: char)
    ensures Join(Split(s, sep), sep) == s
  {
    if s != [] {
      JoinSplit(s[1..], sep);
      var rest := Split(s[1..], sep);
      if s[0] == sep {
        assert Split(s, sep)[1..] == rest;
      } else {
        var r := Split(s, sep);
        assert r[1..] == rest[1..];
        if |rest| == 1 {
          assert r == [[s[0]] + rest[0]];
        } else {
          assert Join(r, sep) == [s[0]] + rest[0] + [sep] + Join(rest[1..], sep);
        }
      }
    }
  }

  /** `word[0]` for each word, where the `undefined` of an empty word joins as "". */
  function FirstChars(ws: seq<string>): (r: string)
    ensures |r| <= |ws|
    // with no empty word, each word gives its first character, in order
    ensures (forall i :: 0 <= i < |ws| ==> ws[i] != []) ==>
              |r| == |ws| && forall i :: 0 <= i < |ws| ==> r[i] == ws[i][0]
  {
    if ws == [] then [] else (if ws[0] == [] then [] else [ws[0][0]]) + FirstChars(ws[1..])
  }

  /** Upper-casing of one character (ASCII letters; other characters are kept). */
  function Upper(c: char): char
  {
    if 'a' <= c <= 'z' then (c as int - 32) as char else c
  }

  function UpperString(s: string): (r: string)
    ensures |r| == |s|
    ensures forall i :: 0 <= i < |s| ==> r[i] == Upper(s[i])
  {
    if s == [] then [] else [Upper(s[0])] + UpperString(s[1..])
  }

  /** `getInitials`: split on spaces, take each word's first character, join, upper-case. */
  function GetInitials(username: string): (r: string)
    // the initials are the upper-cased characters that start a word, in order
    ensures r == UpperString(WordStarts(username, true))
  {
    FirstCharsOfSplit(username);
    UpperString(FirstChars(Split(username, ' ')))
  }

  /** The characters that start a word: not a space, and first or after a space. */
  function WordStarts(s: string, afterSpace: bool): string
  {
    if s == [] then []
    else (if afterSpace && s[0] != ' ' then [s[0]] else []) + WordStarts(s[1..], s[0] == ' ')
  }

  lemma {:induction false} FirstCharsOfSplit(s: string)
    ensures FirstChars(Split(s, ' ')) == WordStarts(s, true)
    ensures FirstChars(Split(s, ' ')[1..]) == WordStarts(s, false)
  {
    if s != [] {
      FirstCharsOfSplit(s[1..]);
      var rest := Split(s[1..], ' ');
      var r := Split(s, ' ');
      if s[0] == ' ' {
        assert r == [""] + rest;
        assert r[1..] == rest;
      } else {
        assert r == [[s[0]] + rest[0]] + rest[1..];
        assert r[1..] == rest[1..];
      }
    }
  }

  /** The number of non-empty words. */
  function NonEmptyCount(ws: seq<string>): nat
  {
    if ws == [] then 0 else (if ws[0] != [] then 1 else 0) + NonEmptyCount(ws[1..])
  }

  /** Empty words (from leading, trailing or repeated spaces) contribute nothing. */
  lemma {:induction false} InitialsLength(ws: seq<string>)
    ensures |FirstChars(ws)| == NonEmptyCount(ws)
    ensures |UpperString(FirstChars(ws))| == NonEmptyCount(ws)
  {
    if ws != [] {
      InitialsLength(ws[1..]);
    }
  }

  /** A name without spaces yields its upper-cased first letter. */
  lemma SingleWordInitial(username: string)
    requires username != [] && ' ' !in username
    ensures GetInitials(username) == [Upper(username[0])]
  {
    SplitWithoutSeparator(username, ' ');
    assert [username][1..] == [];
    assert FirstChars([username]) == [username[0]];
  }

  lemma {:induction false} SplitWithoutSeparator(s: string, sep: char)
    requires sep !in s
    ensures Split(s, sep) == [s]
  {
    if s != [] {
      SplitWithoutSeparator(s[1..], sep);
      assert [s[0]] + s[1..] == s;
    }
  }

  // ---------------------------------------------------------------------------
  // Last seen

  const MsPerDay: int := 86_400_000

  /** Division truncating toward zero, as the day difference of a negative interval is rounded. */
  function TruncDiv(a: int, b: int): (q: int)
    requires b > 0
    ensures a >= 0 ==> q * b <= a < (q + 1) * b
    ensures a < 0 ==> (q - 1) * b < a <= q * b
  {
    if a >= 0 then a / b else -((-a) / b)
  }

  /** Whole days elapsed between `lastSeen` and `now`. */
  function DaysSince(now: nat, lastSeen: nat): int
  {
    TruncDiv(now - lastSeen, MsPerDay)
  }

  /** Which text the label shows; `at` is the time the formatted part displays. */
  datatype LastSeenLabel = OnlineLabel | LastSeenTime(at: nat) | LastSeenDate(at: nat) | OfflineLabel

  /** `renderLastSeen`: online wins; then a time under a day ago, a date otherwise; offline without a last-seen time. */
  function RenderLastSeen(user: UserView, now: nat): (r: LastSeenLabel)
    ensures user.status == Online ==> r == OnlineLabel
    ensures user.status != Online && user.lastSeen.None? ==> r == OfflineLabel
    ensures user.status != Online && user.lastSeen.Some? ==>
              r == if now - user.lastSeen.value < MsPerDay then LastSeenTime(user.lastSeen.value)
                   else LastSeenDate(user.lastSeen.value)
  {
    if user.status == Online then OnlineLabel
    else if user.lastSeen.Some? then
      if DaysSince(now, user.lastSeen.value) < 1 then LastSeenTime(user.lastSeen.value)
      else LastSeenDate(user.lastSeen.value)
    else OfflineLabel
  }
}
