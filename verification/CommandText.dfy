/** What the text of a message means, word for word: for the plain store, for the table, for the
    line added to the log, and for the reply.  Every message is blank or starts, after white
    space, with some word; the lemmas go through all words it can start with. */
module CommandText {
  import opened Text
  import opened KeyValue
  import opened LogFormat
  import opened Buckets
  import opened Protocol
  import opened SequentialServer

  /** A text that ends or goes on with white space, so that the word before it is over. */
  predicate WordOver(rest: string) {
    rest == "" || IsSpace(rest[0])
  }

  predicate Gap(s: string) {
    Blank(s) && s != ""
  }

  lemma FirstWord(pad: string, word: string, rest: string)
    requires Blank(pad) && IsToken(word) && WordOver(rest)
    ensures Extract(pad + word + rest) == (word, rest)
  {
    ExtractToken(pad, word, rest);
  }

  lemma TwoWords(pad: string, command: string, gap: string, key: string, rest: string)
    requires Blank(pad) && IsToken(command) && Gap(gap) && IsToken(key) && WordOver(rest)
    ensures var m := pad + command + gap + key + rest;
            Extract(m).0 == command && Extract(Extract(m).1) == (key, rest)
  {
    var m, r1 := pad + command + gap + key + rest, gap + key + rest;
    assert m == pad + command + r1;
    FirstWord(pad, command, r1);
    FirstWord(gap, key, rest);
  }

  lemma OneWordOnly(pad: string, command: string, rest: string)
    requires Blank(pad) && IsToken(command) && Blank(rest)
    ensures var m := pad + command + rest;
            Extract(m).0 == command && Extract(Extract(m).1) == ("", "")
  {
    FirstWord(pad, command, rest);
    ExtractBlank(rest);
  }

  // Reading the words.

  lemma ParseInsert(pad: string, gap: string, key: string, gap': string, value: string, rest: string)
    requires Blank(pad) && Gap(gap) && IsToken(key) && Gap(gap') && IsToken(value) && WordOver(rest)
    ensures Parse(pad + "INSERT" + gap + key + (gap' + value + rest)) == PutValue(key, value)
  {
    assert IsToken("INSERT");
    TwoWords(pad, "INSERT", gap, key, gap' + value + rest);
    FirstWord(gap', value, rest);
  }

  lemma ParseInsertWithoutValue(pad: string, gap: string, key: string, rest: string)
    requires Blank(pad) && Gap(gap) && IsToken(key) && Blank(rest)
    ensures Parse(pad + "INSERT" + gap + key + rest) == MissingValue
  {
    assert IsToken("INSERT");
    TwoWords(pad, "INSERT", gap, key, rest);
    ExtractBlank(rest);
  }

  lemma ParseGetAndDelete(pad: string, gap: string, key: string, rest: string)
    requires Blank(pad) && Gap(gap) && IsToken(key) && WordOver(rest)
    ensures Parse(pad + "GET" + gap + key + rest) == GetValue(key)
    ensures Parse(pad + "DELETE" + gap + key + rest) == RemoveKey(key)
  {
    assert IsToken("GET") && IsToken("DELETE");
    TwoWords(pad, "GET", gap, key, rest);
    TwoWords(pad, "DELETE", gap, key, rest);
  }

  lemma ParseWithoutKey(pad: string, command: string, rest: string)
    requires Blank(pad) && IsToken(command) && Blank(rest)
    ensures command == "INSERT" ==> Parse(pad + command + rest) == MissingValue
    ensures command == "GET" ==> Parse(pad + command + rest) == GetValue("")
    ensures command == "DELETE" ==> Parse(pad + command + rest) == RemoveKey("")
  {
    OneWordOnly(pad, command, rest);
    ExtractBlank("");
  }

  lemma ParseOther(pad: string, word: string, rest: string)
    requires Blank(pad) && IsToken(word) && WordOver(rest)
    requires word != "INSERT" && word != "GET" && word != "DELETE"
    ensures Parse(pad + word + rest) == Unknown
  {
    FirstWord(pad, word, rest);
  }

  lemma ParseBlank(m: string)
    requires Blank(m)
    ensures Parse(m) == Unknown
  {
    ExtractBlank(m);
  }

  // What is done.

  /** INSERT key value: stored, logged as the same words, confirmed. */
  lemma InsertText(live: Store, table: Table, log: string,
                   pad: string, gap: string, key: string, gap': string, value: string, rest: string)
    requires |table| > 0
    requires Blank(pad) && Gap(gap) && IsToken(key) && Gap(gap') && IsToken(value) && WordOver(rest)
    ensures var m := pad + "INSERT" + gap + key + (gap' + value + rest);
            && StoreAfter(live, m) == live[key := value]
            && Reply(live, m) == "Insert command was successful\n"
            && Execution(table, log, m)
               == Effect(Put(table, key, value), log + ("INSERT " + key + " " + value + "\n"), Reply(live, m))
  {
    ParseInsert(pad, gap, key, gap', value, rest);
    assert LogLine("INSERT", key, value) + "\n" == "INSERT " + key + " " + value + "\n";
  }

  /** INSERT without a value, or without a key: refused. */
  lemma InsertWithoutValueText(live: Store, table: Table, log: string, pad: string, gap: string, key: string, rest: string)
    requires |table| > 0 && Blank(pad) && Blank(rest)
    requires (Gap(gap) && IsToken(key)) || (gap == "" && key == "")
    ensures var m := pad + "INSERT" + gap + key + rest;
            && StoreAfter(live, m) == live && Reply(live, m) == "Empty Value Recieved, Try again\n"
            && Execution(table, log, m) == Effect(table, log, Reply(live, m))
  {
    if key == "" {
      assert pad + "INSERT" + gap + key + rest == pad + "INSERT" + rest;
      assert IsToken("INSERT");
      ParseWithoutKey(pad, "INSERT", rest);
    } else {
      ParseInsertWithoutValue(pad, gap, key, rest);
    }
  }

  /** GET key: changes nothing, and the reply has the value or says there is none. */
  lemma GetText(live: Store, table: Table, log: string, pad: string, gap: string, key: string, rest: string)
    requires |table| > 0 && Blank(pad)
    requires (Gap(gap) && IsToken(key) && WordOver(rest)) || (gap == "" && key == "" && Blank(rest))
    ensures var m := pad + "GET" + gap + key + rest;
            && MutationOf(m) == None && StoreAfter(live, m) == live
            && Reply(live, m) == (if key in live then "Get command was successful: " + live[key] + "\n"
                                  else "Get command was successful but key dont exist\n")
            && Execution(table, log, m)
               == Effect(table, log, if Get(table, key).Some? && Get(table, key).value != ""
                                     then "Get command was successful: " + Get(table, key).value + "\n"
                                     else "Get command was successful but key dont exist\n")
  {
    if key == "" {
      assert pad + "GET" + gap + key + rest == pad + "GET" + rest;
      assert IsToken("GET");
      ParseWithoutKey(pad, "GET", rest);
    } else {
      ParseGetAndDelete(pad, gap, key, rest);
    }
  }

  /** DELETE key, or DELETE alone, which deletes the empty key: unbound, logged, confirmed. */
  lemma DeleteText(live: Store, table: Table, log: string, pad: string, gap: string, key: string, rest: string)
    requires |table| > 0 && Blank(pad)
    requires (Gap(gap) && IsToken(key) && WordOver(rest)) || (gap == "" && key == "" && Blank(rest))
    ensures var m := pad + "DELETE" + gap + key + rest;
            && MutationOf(m) == Some(Delete(key)) && StoreAfter(live, m) == live - {key}
            && Reply(live, m) == "Delete command was successful\n"
            && Execution(table, log, m)
               == Effect(Drop(table, key), log + ("DELETE " + key + " " + "\n"), Reply(live, m))
  {
    if key == "" {
      assert pad + "DELETE" + gap + key + rest == pad + "DELETE" + rest;
      assert IsToken("DELETE");
      ParseWithoutKey(pad, "DELETE", rest);
    } else {
      ParseGetAndDelete(pad, gap, key, rest);
    }
    assert LogLine("DELETE", key, "") + "\n" == "DELETE " + key + " " + "\n";
  }

  /** Any other first word, or none: nothing is done. */
  lemma OtherText(live: Store, table: Table, log: string, pad: string, word: string, rest: string)
    requires |table| > 0 && Blank(pad)
    requires (IsToken(word) && WordOver(rest)) || (word == "" && Blank(rest))
    requires word != "INSERT" && word != "GET" && word != "DELETE"
    ensures var m := pad + word + rest;
            && MutationOf(m) == None && StoreAfter(live, m) == live
            && Reply(live, m) == "No command was received\n"
            && Execution(table, log, m) == Effect(table, log, Reply(live, m))
  {
    if word == "" {
      assert pad + word + rest == pad + rest;
      ParseBlank(pad + rest);
    } else {
      ParseOther(pad, word, rest);
    }
  }

  // Reading the files.

  /** A log line that starts with any word but INSERT removes its key. */
  lemma OtherLogLineRemoves(pad: string, word: string, gap: string, key: string, rest: string)
    requires Blank(pad) && IsToken(word) && word != "INSERT"
    requires (Gap(gap) && IsToken(key) && WordOver(rest)) || (gap == "" && key == "" && Blank(rest))
    ensures DecodeLogLine(pad + word + gap + key + rest) == Delete(key)
  {
    if key == "" {
      assert pad + word + gap + key + rest == pad + word + rest;
      OneWordOnly(pad, word, rest);
    } else {
      TwoWords(pad, word, gap, key, rest);
    }
  }

  /** A snapshot line inserts, whatever word it starts with. */
  lemma AnySnapshotLineInserts(pad: string, word: string, gap: string, key: string,
                               gap': string, value: string, rest: string)
    requires Blank(pad) && IsToken(word) && Gap(gap) && IsToken(key)
    requires Gap(gap') && IsToken(value) && WordOver(rest)
    ensures DecodeSnapshotLine(pad + word + gap + key + (gap' + value + rest)) == Insert(key, value)
  {
    TwoWords(pad, word, gap, key, gap' + value + rest);
    FirstWord(gap', value, rest);
  }

  /** Nothing is left out: every message is blank or starts, after blanks, with a word. */
  lemma {:induction false} EveryMessage(m: string) returns (pad: string, word: string, rest: string)
    ensures m == pad + word + rest && Blank(pad)
    ensures (IsToken(word) && WordOver(rest)) || (word == "" && rest == "")
    decreases |m|
  {
    if m == "" {
      pad, word, rest := "", "", "";
    } else if IsSpace(m[0]) {
      pad, word, rest := EveryMessage(m[1..]);
      pad := [m[0]] + pad;
    } else {
      var n := WordLength(m);
      pad, word, rest := "", m[..n], m[n..];
    }
  }

  /** White space is what `isspace` accepts: blank, \t, \n, \v, \f and \r. */
  lemma WhiteSpace(c: char)
    ensures IsSpace(c) <==> c in " \t\n\U{000B}\U{000C}\r"
  {
  }
}
