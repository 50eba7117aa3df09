/** How a schema's snake_case names read in camelCase, told from their words. */
module SchemaNames {
  import opened SchemaGrammar
  import opened Placeholders
  import opened Toml

  /** The word with its first letter as a capital. */
  function Capitalised(word: string): string {
    if word == [] then []
    else if 'a' <= word[0] <= 'z' then [(word[0] as int - 32) as char] + word[1..]
    else word
  }

  function AllCapitalised(words: seq<string>): string {
    if words == [] then [] else Capitalised(words[0]) + AllCapitalised(words[1..])
  }

  predicate AreWords(words: seq<string>) {
    words != [] && forall i | 0 <= i < |words| :: '_' !in words[i]
  }

  lemma {:induction false} PlainWord(word: string)
    requires '_' !in word
    ensures Camel(word, false) == word && Camel(word, true) == Capitalised(word)
  {
    if word != [] {
      assert '_' !in word[1..];
      PlainWord(word[1..]);
      assert word == [word[0]] + word[1..];
    }
  }

  lemma {:induction false} FirstWord(word: string, rest: string)
    requires '_' !in word
    ensures Camel(word + ("_" + rest), false) == word + Camel(rest, true)
    ensures Camel(word + ("_" + rest), true) == Capitalised(word) + Camel(rest, true)
  {
    var key := word + ("_" + rest);
    if word == [] {
      assert key == "_" + rest && key[1..] == rest;
    } else {
      assert '_' !in word[1..];
      FirstWord(word[1..], rest);
      assert key[1..] == word[1..] + ("_" + rest);
      assert word == [word[0]] + word[1..];
    }
  }

  lemma {:induction false} LaterWords(words: seq<string>)
    requires AreWords(words)
    ensures Camel(Join(words, "_"), true) == AllCapitalised(words)
  {
    if |words| == 1 {
      PlainWord(words[0]);
      assert words[1..] == [];
    } else {
      LaterWords(words[1..]);
      FirstWord(words[0], Join(words[1..], "_"));
      assert words[0] + "_" + Join(words[1..], "_") == words[0] + ("_" + Join(words[1..], "_"));
    }
  }

  /** Words joined by underscores read in camelCase as the first word followed by the others capitalised. */
  lemma CamelJoinsWords(words: seq<string>)
    requires AreWords(words)
    ensures Camel(Join(words, "_"), false) == words[0] + AllCapitalised(words[1..])
  {
    if |words| == 1 {
      PlainWord(words[0]);
      assert words[1..] == [];
    } else {
      LaterWords(words[1..]);
      FirstWord(words[0], Join(words[1..], "_"));
      assert words[0] + "_" + Join(words[1..], "_") == words[0] + ("_" + Join(words[1..], "_"));
    }
  }

  /** Every name is some words joined by underscores. */
  lemma {:induction false} WordsOf(key: string) returns (words: seq<string>)
    ensures AreWords(words) && Join(words, "_") == key
  {
    if key == [] {
      words := [[]];
    } else {
      var rest := WordsOf(key[1..]);
      assert key == [key[0]] + key[1..];
      if key[0] == '_' {
        words := [[]] + rest;
        assert words[1..] == rest;
        assert [] + "_" + Join(rest, "_") == key;
      } else {
        words := [[key[0]] + rest[0]] + rest[1..];
        JoinCons(key[0], rest, "_");
      }
    }
  }

  // ---------- which keys a schema's names stand for ----------

  /** The key is the name, or where the schema allows it, the name in camelCase. */
  predicate Spells(schema: TableSchema, words: seq<string>, key: string)
    requires AreWords(words)
  {
    key == Join(words, "_") || (schema.camel && key == words[0] + AllCapitalised(words[1..]))
  }

  /** A key names a field exactly if it spells its name. */
  lemma MatchesExactly(schema: TableSchema, words: seq<string>, key: string)
    requires AreWords(words)
    ensures Matches(schema, Join(words, "_"), key) <==> Spells(schema, words, key)
  {
    CamelJoinsWords(words);
  }

  /** A required name is missing exactly if no key of the table spells it. */
  lemma ProvidesExactly(schema: TableSchema, entries: seq<Field>, words: seq<string>)
    requires AreWords(words)
    ensures Provides(schema, entries, Join(words, "_")) <==> exists f | f in entries :: Spells(schema, words, f.key)
  {
    forall f | f in entries ensures Matches(schema, Join(words, "_"), f.key) <==> Spells(schema, words, f.key) {
      MatchesExactly(schema, words, f.key);
    }
    if Provides(schema, entries, Join(words, "_")) {
      var i :| 0 <= i < |entries| && Matches(schema, Join(words, "_"), entries[i].key);
      assert entries[i] in entries;
    }
  }

  /** A name can be an environment's exactly if it is made of lowercase letters, digits and dashes, and neither begins
      nor ends with a dash. */
  lemma EnvNameExactly(s: string)
    ensures IsEnvName(s)
       <==> && s != [] && s[0] != '-' && s[|s| - 1] != '-'
            && forall i | 0 <= i < |s| :: 'a' <= s[i] <= 'z' || '0' <= s[i] <= '9' || s[i] == '-'
  {
  }
}
