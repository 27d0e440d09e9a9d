/**
 * How a command-line program reads an argument vector: a word in `valued` takes the
 * next word as its value, any other word that starts with '-' is a flag, and the
 * remaining words are positional.  The argument vectors the gateway builds are
 * checked against this reading.
 */
module Argv {

  datatype Reading = Reading(positionals: seq<string>, options: map<string, string>, flags: set<string>)

  const Empty := Reading([], map[], {})

  predicate IsOptionLike(word: string) {
    |word| >= 2 && word[0] == '-'
  }

  /** The reading of `args`; when an option is given twice its last value wins. */
  function Read(args: seq<string>, valued: set<string>): Reading
    decreases |args|
  {
    if args == [] then Empty
    else if args[0] in valued && |args| >= 2 then
      var rest := Read(args[2..], valued);
      rest.(options := map[args[0] := args[1]] + rest.options)
    else if IsOptionLike(args[0]) then
      var rest := Read(args[1..], valued);
      rest.(flags := {args[0]} + rest.flags)
    else
      var rest := Read(args[1..], valued);
      rest.(positionals := [args[0]] + rest.positionals)
  }

  lemma ReadPositional(word: string, rest: seq<string>, valued: set<string>)
    requires word !in valued && !IsOptionLike(word)
    ensures Read([word] + rest, valued)
         == Read(rest, valued).(positionals := [word] + Read(rest, valued).positionals)
  {
    assert ([word] + rest)[1..] == rest;
  }

  /** A run of positional words reads as those positionals in front of the rest. */
  lemma {:induction false} ReadPositionals(words: seq<string>, rest: seq<string>, valued: set<string>)
    requires forall i | 0 <= i < |words| :: words[i] !in valued && !IsOptionLike(words[i])
    ensures Read(words + rest, valued)
         == Read(rest, valued).(positionals := words + Read(rest, valued).positionals)
    decreases |words|
  {
    if words == [] {
      assert words + rest == rest;
    } else {
      var tail := Read(rest, valued).positionals;
      ReadPositionals(words[1..], rest, valued);
      assert words + rest == [words[0]] + (words[1..] + rest);
      ReadPositional(words[0], words[1..] + rest, valued);
      assert [words[0]] + (words[1..] + tail) == words + tail;
    }
  }

  lemma ReadFlag(word: string, rest: seq<string>, valued: set<string>)
    requires word !in valued && IsOptionLike(word)
    ensures Read([word] + rest, valued)
         == Read(rest, valued).(flags := {word} + Read(rest, valued).flags)
  {
    assert ([word] + rest)[1..] == rest;
  }

  lemma ReadOption(option: string, value: string, rest: seq<string>, valued: set<string>)
    requires option in valued
    ensures Read([option, value] + rest, valued)
         == Read(rest, valued).(options := map[option := value] + Read(rest, valued).options)
  {
    assert ([option, value] + rest)[2..] == rest;
  }
}
