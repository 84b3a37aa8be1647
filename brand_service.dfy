/** BrandService: registering brands, minting item codes from a brand's
    abbreviation and running sequence number, looking brands up by name and
    renaming them. */
module BrandService {
  import opened Common
  import opened Strings
  import opened Int32
  import opened Numbers
  import opened Audit
  import opened Entities
  import opened Repositories

  /** The abbreviation addBrand derives: the first and the last character of
      the trimmed name (the same character twice for a one-character name);
      charAt on an empty trimmed name throws. */
  function Abbreviation(name: string): (r: Result<string>)
    ensures r.Err? <==> Trim(name) == []
    ensures r.Err? ==> r.error == IndexOutOfBounds
    ensures r.Ok? ==> |r.value| == 2 && r.value[0] == Trim(name)[0] && r.value[1] == Trim(name)[|Trim(name)| - 1]
    ensures r.Ok? && |Trim(name)| == 1 ==> r.value[0] == r.value[1]
  {
    var t := Trim(name);
    if t == [] then Err(IndexOutOfBounds) else Ok([t[0], t[|t| - 1]])
  }

  /** Surrounding whitespace does not change the abbreviation. */
  lemma AbbreviationIgnoresPadding(name: string)
    ensures Abbreviation(Trim(name)) == Abbreviation(name)
  {
    var t := Trim(name);
    if t != [] {
      TrimOfTrimmed(t);
    } else {
      assert Trim(t) == [];
    }
  }

  /** abbreviation + String.format("%04d", sequence), with nulls printed as
      "null". */
  function ItemCode(abbreviation: Option<string>, sequence: Option<int>): string {
    Show(abbreviation) + (if sequence.None? then "null" else Format04(sequence.value))
  }

  /** Codes of one brand are equal only when their sequences are. */
  lemma ItemCodeInjective(abbreviation: Option<string>, m: int, n: int)
    requires ItemCode(abbreviation, Some(m)) == ItemCode(abbreviation, Some(n))
    ensures m == n
  {
    var a, b := ItemCode(abbreviation, Some(m)), ItemCode(abbreviation, Some(n));
    var p := |Show(abbreviation)|;
    assert a[p..] == Format04(m);
    assert b[p..] == Format04(n);
    Format04Injective(m, n);
  }

  /** Codes of one brand with different sequences differ. */
  lemma ItemCodesDiffer(abbreviation: Option<string>, m: int, n: int)
    requires m != n
    ensures ItemCode(abbreviation, Some(m)) != ItemCode(abbreviation, Some(n))
  {
    if ItemCode(abbreviation, Some(m)) == ItemCode(abbreviation, Some(n)) {
      ItemCodeInjective(abbreviation, m, n);
    }
  }

  /** addBrand on the table: abbreviation from the trimmed name, sequence 0,
      saved under its id (a fresh one when it has none). The save fails when
      another stored brand already has the name (Brand.brandName is unique). */
  function AddBrandSpec(rows: map<int, Brand>, nextId: int, brand: Brand): (r: Result<SavedBrand>)
    ensures r.Err? <==> brand.brandName.None? || Trim(brand.brandName.value) == [] || BrandNameClash(rows, brand)
    ensures r.Err? && r.error == DataIntegrityViolation <==>
              brand.brandName.Some? && Trim(brand.brandName.value) != [] && BrandNameClash(rows, brand)
    ensures r.Ok? ==> r.value.brand.latestSequence == Some(0)
                      && r.value.brand.brandName == brand.brandName
                      && r.value.brand.abbreviation.Some?
                      && Abbreviation(brand.brandName.value) == Ok(r.value.brand.abbreviation.value)
  {
    if brand.brandName.None? then Err(NullPointer)
    else match Abbreviation(brand.brandName.value)
      case Err(e) => Err(e)
      case Ok(abbreviation) =>
        var b := brand.(abbreviation := Some(abbreviation), latestSequence := Some(0));
        if BrandNameClash(rows, b) then Err(DataIntegrityViolation)
        else Ok(SaveBrand(rows, nextId, b))
  }

  /** A name another stored brand holds is refused by the unique column. */
  lemma AddBrandRejectsTakenName(rows: map<int, Brand>, nextId: int, brand: Brand, k: int)
    requires k in rows && rows[k].brandName == brand.brandName && brand.brandId != Some(k)
    requires brand.brandName.Some? && Trim(brand.brandName.value) != []
    ensures AddBrandSpec(rows, nextId, brand) == Err(DataIntegrityViolation)
  {
  }

  /** addBrand keeps brand names unique. */
  lemma AddBrandKeepsNamesUnique(rows: map<int, Brand>, nextId: int, brand: Brand)
    requires BrandNamesUnique(rows)
    requires AddBrandSpec(rows, nextId, brand).Ok?
    ensures BrandNamesUnique(AddBrandSpec(rows, nextId, brand).value.rows)
  {
    var b := brand.(abbreviation := AddBrandSpec(rows, nextId, brand).value.brand.abbreviation, latestSequence := Some(0));
    SaveBrandKeepsNamesUnique(rows, nextId, b);
  }

  datatype Minted = Minted(saved: SavedBrand, code: string)

  /** generateItemCode on the table: the sequence goes up by one (as a Java
      int), the brand is saved, and the code carries the new sequence. */
  function GenerateItemCodeSpec(rows: map<int, Brand>, nextId: int, brand: Brand): (r: Result<Minted>)
    ensures r.Err? <==> brand.latestSequence.None?
    ensures r.Err? ==> r.error == NullPointer
    ensures r.Ok? ==> r.value.saved.brand == brand.(brandId := r.value.saved.brand.brandId,
                                                    latestSequence := Some(Wrap32(brand.latestSequence.value + 1)))
    ensures r.Ok? ==> r.value.code == ItemCode(brand.abbreviation, r.value.saved.brand.latestSequence)
  {
    if brand.latestSequence.None? then Err(NullPointer)
    else
      var bumped := brand.(latestSequence := Some(Wrap32(brand.latestSequence.value + 1)));
      var saved := SaveBrand(rows, nextId, bumped);
      Ok(Minted(saved, ItemCode(bumped.abbreviation, bumped.latestSequence)))
  }

  /** generateItemCode on a brand with a sequence saves the bumped brand. */
  lemma GenerateIsBumpedSave(rows: map<int, Brand>, nextId: int, brand: Brand)
    requires brand.latestSequence.Some?
    ensures var bumped := brand.(latestSequence := Some(Wrap32(brand.latestSequence.value + 1)));
            GenerateItemCodeSpec(rows, nextId, brand)
            == Ok(Minted(SaveBrand(rows, nextId, bumped), ItemCode(bumped.abbreviation, bumped.latestSequence)))
  {
  }

  /** From a freshly added brand, the first generated code ends in "0001". */
  lemma FirstCodeOfNewBrand(rows: map<int, Brand>, nextId: int, brand: Brand)
    requires AddBrandSpec(rows, nextId, brand).Ok?
    ensures var added := AddBrandSpec(rows, nextId, brand).value;
            var minted := GenerateItemCodeSpec(added.rows, added.nextId, added.brand);
            minted.Ok? && minted.value.code == added.brand.abbreviation.value + "0001"
            && minted.value.saved.brand.latestSequence == Some(1)
  {
    var added := AddBrandSpec(rows, nextId, brand).value;
    assert Format04(1) == "0001" by {
      assert Digits(1) == "1";
      assert Zeros(3) == "000";
    }
  }

  /** The codes `n` successive generateItemCode calls return, each call given
      the brand the previous call saved. */
  function MintSequence(rows: map<int, Brand>, nextId: int, brand: Brand, n: nat): Result<seq<string>>
    decreases n
  {
    if n == 0 then Ok([])
    else match GenerateItemCodeSpec(rows, nextId, brand)
      case Err(e) => Err(e)
      case Ok(m) =>
        match MintSequence(m.saved.rows, m.saved.nextId, m.saved.brand, n - 1)
        case Err(e) => Err(e)
        case Ok(rest) => Ok([m.code] + rest)
  }

  /** f(from), f(from+1), ..., f(from+n-1). */
  function Run<T>(f: int -> T, from: int, n: nat): (r: seq<T>)
    ensures |r| == n
    decreases n
  {
    if n == 0 then [] else [f(from)] + Run(f, from + 1, n - 1)
  }

  /** The j-th element of a run is f(from + j). */
  lemma {:induction false} RunAt<T>(f: int -> T, from: int, n: nat, j: nat)
    requires j < n
    ensures Run(f, from, n)[j] == f(from + j)
    decreases n
  {
    if j > 0 {
      RunAt(f, from + 1, n - 1, j - 1);
      assert from + 1 + (j - 1) == from + j;
    }
  }

  /** Where f differs, the run differs. */
  lemma RunDistinctAt<T>(f: int -> T, from: int, n: nat, j: nat, j': nat)
    requires j < n && j' < n && f(from + j) != f(from + j')
    ensures Run(f, from, n)[j] != Run(f, from, n)[j']
  {
    RunAt(f, from, n, j);
    RunAt(f, from, n, j');
  }

  /** The code maker of one brand: a sequence to its code. */
  function CodeOf(abbreviation: Option<string>): int -> string {
    k => ItemCode(abbreviation, Some(k))
  }

  /** The codes of sequences from, from+1, ..., from+n-1. */
  function CodeRun(abbreviation: Option<string>, from: int, n: nat): (r: seq<string>)
    ensures |r| == n
  {
    Run(CodeOf(abbreviation), from, n)
  }

  /** The j-th code of a run is the code of sequence from + j. */
  lemma CodeRunAt(abbreviation: Option<string>, from: int, n: nat, j: nat)
    requires j < n
    ensures CodeRun(abbreviation, from, n)[j] == ItemCode(abbreviation, Some(from + j))
  {
    RunAt(CodeOf(abbreviation), from, n, j);
  }

  /** Successive calls use the sequences s+1, s+2, ..., s+n. */
  lemma {:induction false} MintSequenceCodes(rows: map<int, Brand>, nextId: int, brand: Brand, n: nat)
    requires brand.latestSequence.Some? && 0 <= brand.latestSequence.value
    requires brand.latestSequence.value + n <= MaxInt32
    ensures MintSequence(rows, nextId, brand, n) == Ok(CodeRun(brand.abbreviation, brand.latestSequence.value + 1, n))
    decreases n
  {
    if n > 0 {
      GenerateStep(rows, nextId, brand);
      var m := GenerateItemCodeSpec(rows, nextId, brand).value;
      MintSequenceCodes(m.saved.rows, m.saved.nextId, m.saved.brand, n - 1);
    }
  }

  /** One generateItemCode call below the int limit: the sequence goes up by
      one, the abbreviation stays, and the code carries the new sequence. */
  lemma GenerateStep(rows: map<int, Brand>, nextId: int, brand: Brand)
    requires brand.latestSequence.Some? && 0 <= brand.latestSequence.value < MaxInt32
    ensures var g := GenerateItemCodeSpec(rows, nextId, brand);
            var s := brand.latestSequence.value;
            g.Ok? && g.value.saved.brand.latestSequence == Some(s + 1)
            && g.value.saved.brand.abbreviation == brand.abbreviation
            && g.value.code == ItemCode(brand.abbreviation, Some(s + 1))
  {
    assert Wrap32(brand.latestSequence.value + 1) == brand.latestSequence.value + 1;
  }

  /** Successive generateItemCode calls on one brand return pairwise distinct
      codes, as long as the sequence does not overflow. */
  lemma {:induction false} SuccessiveCodesDistinct(rows: map<int, Brand>, nextId: int, brand: Brand, n: nat)
    requires brand.latestSequence.Some? && 0 <= brand.latestSequence.value
    requires brand.latestSequence.value + n <= MaxInt32
    ensures MintSequence(rows, nextId, brand, n).Ok?
    ensures var codes := MintSequence(rows, nextId, brand, n).value;
            |codes| == n && forall j, j' :: 0 <= j < j' < |codes| ==> codes[j] != codes[j']
  {
    MintSequenceCodes(rows, nextId, brand, n);
    var from := brand.latestSequence.value + 1;
    var codes := CodeRun(brand.abbreviation, from, n);
    forall j, j' | 0 <= j < j' < |codes| ensures codes[j] != codes[j'] {
      ItemCodesDiffer(brand.abbreviation, from + j, from + j');
      RunDistinctAt(CodeOf(brand.abbreviation), from, n, j, j');
    }
  }

  /** The sequence number a code of the brand with this abbreviation carries. */
  function SequenceOf(abbreviation: Option<string>, code: string): Option<int> {
    var p := |Show(abbreviation)|;
    if |code| < p then None else ParseLong(code[p..])
  }

  /** Reading the sequence back from a code gives the sequence it was made
      from. */
  lemma SequenceOfItemCode(abbreviation: Option<string>, sequence: int)
    requires IsInt32(sequence)
    ensures SequenceOf(abbreviation, ItemCode(abbreviation, Some(sequence))) == Some(sequence)
  {
    var code := ItemCode(abbreviation, Some(sequence));
    assert code[|Show(abbreviation)|..] == Format04(sequence);
    ParseLongFormat04(sequence);
  }

  /** getBrandbyName on the table: a null or blank name is refused, any other
      name is looked up trimmed, exactly. */
  function BrandByName(rows: map<int, Brand>, name: Option<string>): (r: Result<Option<Brand>>)
    ensures name.None? || Trim(name.value) == [] ==> r == Err(EntityNotFound(Some("Brand is supposed to be not null.")))
    ensures r.Ok? && r.value.Some? ==> exists k :: k in rows && rows[k] == r.value.value && rows[k].brandName == Some(Trim(name.value))
    ensures name.Some? && Trim(name.value) != [] ==>
              (r == Ok(None) <==> forall k :: k in rows ==> rows[k].brandName != Some(Trim(name.value)))
    ensures name.Some? && Trim(name.value) != [] ==>
              (r == Err(NonUniqueResult) <==>
                 exists a, b :: a in rows && b in rows && a != b
                                && rows[a].brandName == Some(Trim(name.value)) && rows[b].brandName == Some(Trim(name.value)))
    ensures name.Some? && Trim(name.value) != [] ==>
              forall k :: (k in rows && rows[k].brandName == Some(Trim(name.value))
                           && forall j :: j in rows && rows[j].brandName == Some(Trim(name.value)) ==> j == k)
                          ==> r == Ok(Some(rows[k]))
  {
    if name.None? || Trim(name.value) == [] then Err(EntityNotFound(Some("Brand is supposed to be not null.")))
    else match FindByBrandName(rows, Some(Trim(name.value)))
      case Err(e) => Err(e)
      case Ok(None) => Ok(None)
      case Ok(Some(k)) => Ok(Some(rows[k]))
  }

  /** The message Hibernate gives when a reference to a missing brand is used. */
  function MissingBrandMessage(id: int): string {
    "Unable to find com.biotech.lis.Entity.Brand with id " + IntToString(id)
  }

  /** updateBrand on the table. The name check comes first; the brand is then
      fetched by reference, which fails with EntityNotFoundException when the
      id is unknown, so the source's null check never fires. The save is
      subject to the unique name column. */
  function UpdateBrandSpec(rows: map<int, Brand>, nextId: int, current: Brand): Result<SavedBrand> {
    match FindByBrandName(rows, current.brandName)
    case Err(e) => Err(e)
    case Ok(check) =>
      if check.Some? && rows[check.value].brandId != current.brandId then
        Err(IllegalArgument("Brand name already exists."))
      else if current.brandId.None? then Err(IllegalArgument("The given id must not be null"))
      else if current.brandId.value !in rows then Err(EntityNotFound(Some(MissingBrandMessage(current.brandId.value))))
      else
        var renamed := rows[current.brandId.value].(brandName := current.brandName);
        if BrandNameClash(rows, renamed) then Err(DataIntegrityViolation)
        else Ok(SaveBrand(rows, nextId, renamed))
  }

  /** On a table whose rows sit under their own ids, the name check already
      refuses every rename the unique column would: the save never fails. */
  lemma UpdateBrandNameCheckSuffices(rows: map<int, Brand>, nextId: int, current: Brand)
    requires BrandTableValid(rows, nextId)
    ensures UpdateBrandSpec(rows, nextId, current) != Err(DataIntegrityViolation)
  {
    if FindByBrandName(rows, current.brandName).Ok? && current.brandId.Some? && current.brandId.value in rows {
      var renamed := rows[current.brandId.value].(brandName := current.brandName);
      if FindByBrandName(rows, current.brandName).value.Some? {
        var k := FindByBrandName(rows, current.brandName).value.value;
        if rows[k].brandId == current.brandId {
          assert renamed.brandId == Some(current.brandId.value);
          assert !BrandNameClash(rows, renamed);
        }
      }
    }
  }

  /** updateBrand keeps brand names unique. */
  lemma UpdateBrandKeepsNamesUnique(rows: map<int, Brand>, nextId: int, current: Brand)
    requires BrandNamesUnique(rows)
    requires UpdateBrandSpec(rows, nextId, current).Ok?
    ensures BrandNamesUnique(UpdateBrandSpec(rows, nextId, current).value.rows)
  {
    SaveBrandKeepsNamesUnique(rows, nextId, rows[current.brandId.value].(brandName := current.brandName));
  }

  /** generateItemCode's save keeps the name of the stored brand it bumps, so
      the unique column cannot refuse it and names stay unique. */
  lemma GenerateKeepsNamesUnique(rows: map<int, Brand>, nextId: int, brand: Brand)
    requires BrandNamesUnique(rows)
    requires brand.brandId.Some? && brand.brandId.value in rows && rows[brand.brandId.value].brandName == brand.brandName
    ensures !BrandNameClash(rows, brand)
    ensures GenerateItemCodeSpec(rows, nextId, brand).Ok? ==>
              BrandNamesUnique(GenerateItemCodeSpec(rows, nextId, brand).value.saved.rows)
  {
    var id := brand.brandId.value;
    forall k | k in rows && rows[k].brandName == brand.brandName && brand.brandName.Some?
      ensures Some(k) == brand.brandId
    {
      assert rows[id].brandName == rows[k].brandName;
    }
    if GenerateItemCodeSpec(rows, nextId, brand).Ok? {
      SaveBrandKeepsNamesUnique(rows, nextId, brand.(latestSequence := Some(Wrap32(brand.latestSequence.value + 1))));
    }
  }

  /** A name that another brand already holds is refused. */
  lemma UpdateBrandRejectsTakenName(rows: map<int, Brand>, nextId: int, current: Brand, k: int)
    requires k in rows && rows[k].brandName == current.brandName && rows[k].brandId != current.brandId
    requires forall k' :: k' in rows && k' != k ==> rows[k'].brandName != current.brandName
    ensures UpdateBrandSpec(rows, nextId, current) == Err(IllegalArgument("Brand name already exists."))
  {
  }

  /** Otherwise only the stored brand's name changes: its id, abbreviation
      and sequence stay, and so does every other brand. */
  lemma UpdateBrandOnlyRenames(rows: map<int, Brand>, nextId: int, current: Brand)
    requires BrandTableValid(rows, nextId)
    requires UpdateBrandSpec(rows, nextId, current).Ok?
    ensures var id := current.brandId.value;
            var saved := UpdateBrandSpec(rows, nextId, current).value;
            id in rows && saved.rows == rows[id := rows[id].(brandName := current.brandName)]
            && saved.nextId == nextId && saved.brand == rows[id].(brandName := current.brandName)
  {
  }

  class BrandService {
    const brandRepository: BrandRepository

    constructor(brandRepository: BrandRepository)
      ensures this.brandRepository == brandRepository
    {
      this.brandRepository := brandRepository;
    }

    /** brandRepository.save. */
    method Save(brand: Brand) returns (saved: Brand)
      modifies brandRepository
      ensures var s := SaveBrand(old(brandRepository.rows), old(brandRepository.nextId), brand);
              saved == s.brand && brandRepository.rows == s.rows && brandRepository.nextId == s.nextId
    {
      var s := SaveBrand(brandRepository.rows, brandRepository.nextId, brand);
      brandRepository.rows, brandRepository.nextId := s.rows, s.nextId;
      saved := s.brand;
    }

    /** addBrand. */
    method AddBrand(brand: Brand) returns (r: Result<Brand>)
      modifies brandRepository
      ensures match AddBrandSpec(old(brandRepository.rows), old(brandRepository.nextId), brand)
              case Ok(s) => r == Ok(s.brand) && brandRepository.rows == s.rows && brandRepository.nextId == s.nextId
              case Err(e) => r == Err(e) && brandRepository.rows == old(brandRepository.rows)
                             && brandRepository.nextId == old(brandRepository.nextId)
    {
      if brand.brandName.None? {
        return Err(NullPointer);
      }
      var name := Trim(brand.brandName.value);
      if |name| == 0 {
        return Err(IndexOutOfBounds);
      }
      var abbreviation := [name[0], name[|name| - 1]];
      var b := brand.(abbreviation := Some(abbreviation), latestSequence := Some(0));
      if BrandNameClash(brandRepository.rows, b) {
        return Err(DataIntegrityViolation);
      }
      var saved := Save(b);
      return Ok(saved);
    }

    /** generateItemCode: returns the brand as the call leaves it (the source
        updates the caller's object) together with the code. */
    method GenerateItemCode(brand: Brand) returns (r: Result<(Brand, string)>)
      modifies brandRepository
      ensures match GenerateItemCodeSpec(old(brandRepository.rows), old(brandRepository.nextId), brand)
              case Ok(m) => r == Ok((m.saved.brand, m.code)) && brandRepository.rows == m.saved.rows
                            && brandRepository.nextId == m.saved.nextId
              case Err(e) => r == Err(e) && brandRepository.rows == old(brandRepository.rows)
                             && brandRepository.nextId == old(brandRepository.nextId)
    {
      if brand.latestSequence.None? {
        return Err(NullPointer);
      }
      var bumped := brand.(latestSequence := Some(Wrap32(brand.latestSequence.value + 1)));
      GenerateIsBumpedSave(brandRepository.rows, brandRepository.nextId, brand);
      var saved := Save(bumped);
      return Ok((saved, ItemCode(bumped.abbreviation, bumped.latestSequence)));
    }

    /** updateBrand. */
    method UpdateBrand(current: Brand) returns (r: Result<Brand>)
      modifies brandRepository
      ensures match UpdateBrandSpec(old(brandRepository.rows), old(brandRepository.nextId), current)
              case Ok(s) => r == Ok(s.brand) && brandRepository.rows == s.rows && brandRepository.nextId == s.nextId
              case Err(e) => r == Err(e) && brandRepository.rows == old(brandRepository.rows)
                             && brandRepository.nextId == old(brandRepository.nextId)
    {
      var check := FindByBrandName(brandRepository.rows, current.brandName);
      if check.Err? {
        return Err(check.error);
      }
      if check.value.Some? && brandRepository.rows[check.value.value].brandId != current.brandId {
        return Err(IllegalArgument("Brand name already exists."));
      }
      if current.brandId.None? {
        return Err(IllegalArgument("The given id must not be null"));
      }
      if current.brandId.value !in brandRepository.rows {
        return Err(EntityNotFound(Some(MissingBrandMessage(current.brandId.value))));
      }
      var existing := brandRepository.rows[current.brandId.value];
      existing := existing.(brandName := current.brandName);
      if BrandNameClash(brandRepository.rows, existing) {
        return Err(DataIntegrityViolation);
      }
      var saved := Save(existing);
      return Ok(saved);
    }
  }
}
