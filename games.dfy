/** A catalogue record (one game of the data file) and the text that is
    embedded for it at ingestion. */
module Games {
  import opened Decimal

  datatype Option<T> = None | Some(value: T)

  /** One game as the data file holds it. The whole record is the metadata
      stored beside the embedding. */
  datatype Game = Game(
    title: string,
    genre: string,
    console: string,
    developer: string,
    esrb: string,
    rating: nat,
    difficulty: nat,
    length: nat,
    description: string)

  /** A metadata value as the store sees it: a number or a string. */
  datatype Value = Num(n: int) | Str(s: string)

  const RatingKey: string := "rating"
  const DeveloperKey: string := "developer"

  /** The metadata value stored under `key`, or None for a key the record
      does not have. */
  function Lookup(g: Game, key: string): (v: Option<Value>)
    ensures key == RatingKey ==> v == Some(Num(g.rating))
    ensures key == DeveloperKey ==> v == Some(Str(g.developer))
  {
    match key
    case "title" => Some(Str(g.title))
    case "genre" => Some(Str(g.genre))
    case "console" => Some(Str(g.console))
    case "developer" => Some(Str(g.developer))
    case "esrb" => Some(Str(g.esrb))
    case "rating" => Some(Num(g.rating))
    case "difficulty" => Some(Num(g.difficulty))
    case "length" => Some(Num(g.length))
    case "description" => Some(Str(g.description))
    case _ => None
  }

  /** The embeddable text of a game: title, genre, developer, the decimal
      rating and the description, in that order and with no separator.
      Console, esrb, difficulty and length are not part of it. */
  function Document(g: Game): (d: string)
    ensures |d| == |g.title| + |g.genre| + |g.developer| + |NatToString(g.rating)| + |g.description|
    ensures var a := |g.title|;
            var b := a + |g.genre|;
            var c := b + |g.developer|;
            var e := c + |NatToString(g.rating)|;
            d[..a] == g.title && d[a..b] == g.genre && d[b..c] == g.developer
            && d[c..e] == NatToString(g.rating) && d[e..] == g.description
  {
    g.title + g.genre + g.developer + NatToString(g.rating) + g.description
  }

  /** Only the five embedded fields decide the document: two games that
      agree on them get the same text whatever their console, esrb,
      difficulty and length. */
  lemma DocumentIgnoresOtherFields(g: Game, h: Game)
    requires g.title == h.title && g.genre == h.genre && g.developer == h.developer
    requires g.rating == h.rating && g.description == h.description
    ensures Document(g) == Document(h)
  {
  }

  /** Since the fields are joined without separators, the document does
      not record where one field ends: two games whose title and genre
      together read the same, and that agree on the other embedded fields,
      get the same document however the characters fall between title and
      genre. */
  lemma DocumentBoundariesAmbiguous(g: Game, h: Game)
    requires g.title + g.genre == h.title + h.genre
    requires g.developer == h.developer && g.rating == h.rating && g.description == h.description
    ensures Document(g) == Document(h)
  {
  }

  /** The key view of a record loses nothing: two records that give the
      same value under every key are the same record. */
  lemma LookupDeterminesRecord(g: Game, h: Game)
    requires forall key :: Lookup(g, key) == Lookup(h, key)
    ensures g == h
  {
    assert Lookup(g, "title") == Lookup(h, "title");
    assert Lookup(g, "genre") == Lookup(h, "genre");
    assert Lookup(g, "console") == Lookup(h, "console");
    assert Lookup(g, "developer") == Lookup(h, "developer");
    assert Lookup(g, "esrb") == Lookup(h, "esrb");
    assert Lookup(g, "rating") == Lookup(h, "rating");
    assert Lookup(g, "difficulty") == Lookup(h, "difficulty");
    assert Lookup(g, "length") == Lookup(h, "length");
    assert Lookup(g, "description") == Lookup(h, "description");
  }
}
