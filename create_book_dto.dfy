/** The body of a create or update book request (`CreateBookDto`) and the
    constraints its decorators put on it. */
module CreateBookValidation {
  import opened Common
  import opened Validators

  /** The raw JSON body. */
  datatype CreateBookBody = CreateBookBody(title: Field, author: Field, description: Field)

  /** The validated, whitelisted DTO a handler receives. */
  datatype CreateBookDto = CreateBookDto(title: string, author: string, description: string)

  predicate TitleAccepted(f: Field) { IsString(f) && IsNotEmpty(f) && Length(f, 3, 100) }

  predicate AuthorAccepted(f: Field) { IsString(f) && IsNotEmpty(f) && Length(f, 3, 50) }

  /** The decorator's message speaks of 10 characters; the enforced minimum is 1. */
  predicate DescriptionAccepted(f: Field) { IsString(f) && IsNotEmpty(f) && Length(f, 1, 1000) }

  predicate BodyAccepted(b: CreateBookBody)
  {
    TitleAccepted(b.title) && AuthorAccepted(b.author) && DescriptionAccepted(b.description)
  }

  function AsBody(dto: CreateBookDto): CreateBookBody
  {
    CreateBookBody(Str(dto.title), Str(dto.author), Str(dto.description))
  }

  /** A DTO that passed validation. */
  predicate ValidDto(dto: CreateBookDto) { BodyAccepted(AsBody(dto)) }

  /** Validation of a request body: the typed DTO, or nothing when any constraint fails. */
  function Validate(b: CreateBookBody): (r: Option<CreateBookDto>)
    ensures r.Some? <==>
              && b.title.Str? && 3 <= CountedLength(b.title.text) <= 100
              && b.author.Str? && 3 <= CountedLength(b.author.text) <= 50
              && b.description.Str? && 1 <= CountedLength(b.description.text) <= 1000
    ensures r.Some? ==> AsBody(r.value) == b && ValidDto(r.value)
  {
    if BodyAccepted(b) then Some(CreateBookDto(b.title.text, b.author.text, b.description.text)) else None
  }

  lemma TitleBounds(f: Field)
    ensures TitleAccepted(f) <==> f.Str? && 3 <= CountedLength(f.text) <= 100
  {
  }

  lemma AuthorBounds(f: Field)
    ensures AuthorAccepted(f) <==> f.Str? && 3 <= CountedLength(f.text) <= 50
  {
  }

  lemma DescriptionBounds(f: Field)
    ensures DescriptionAccepted(f) <==> f.Str? && 1 <= CountedLength(f.text) <= 1000
  {
  }

  /** A one- to nine-character description passes although the message asks for ten. */
  lemma ShortDescriptionAccepted(s: string)
    requires 1 <= CountedLength(s) < 10
    ensures DescriptionAccepted(Str(s))
  {
  }

  /** A description of variation selectors alone is not empty, yet counts as
      zero characters and is rejected. */
  lemma SelectorsOnlyDescriptionRejected(s: string)
    requires s != [] && forall i :: 0 <= i < |s| ==> IsVariationSelector(s[i])
    ensures IsNotEmpty(Str(s)) && !DescriptionAccepted(Str(s))
  {
    SelectorsCountNothing(s);
  }

  lemma EmptyFieldsRejected()
    ensures !TitleAccepted(Str("")) && !AuthorAccepted(Str("")) && !DescriptionAccepted(Str(""))
    ensures !TitleAccepted(Missing) && !AuthorAccepted(Missing) && !DescriptionAccepted(Missing)
    ensures !TitleAccepted(NonString) && !AuthorAccepted(NonString) && !DescriptionAccepted(NonString)
  {
  }

  /** Validating the body of a valid DTO gives that DTO back. */
  lemma ValidateRoundTrip(dto: CreateBookDto)
    requires ValidDto(dto)
    ensures Validate(AsBody(dto)) == Some(dto)
  {
  }
}
