/** A member's name as a string of the header: two examples of what the reader makes of it. */
module KeyNameCollision {
  import opened Text
  import opened HeaderJson
  import opened HeaderRoundTrip

  /** The artifact path is the only string that is set, and it is the name of a later member. */
  predicate PathIsName(h: Header, k: Key) {
    && Proper(h) && h.artifactPath == Name(k) && Rank(k) > Rank(ArtifactPath)
    && h.servingDigest == "" && h.tensorSpec == TensorSpec([], "") && h.errorCode == "" && h.errorMessage == ""
  }

  /** The path is taken for that name, and for no other, and the payload length stands behind it. */
  lemma {:induction false} HitIsPath(h: Header, k: Key)
    requires PathIsName(h, k)
    ensures FirstHit(h, k, 0) == Some(4) && !Clear(h, k)
    ensures Behind(h, k) == Some(Num(h.payloadLength))
    ensures forall other: Key | other != k :: Clear(h, other)
  {
    hide Name, Proper;
    FourBeforePath(h, k);
    PathIsHit(h, k);
    PayloadIsNext(h);
    forall other: Key | other != k
      ensures Clear(h, other)
    {
      OthersAreClear(h, k, other);
    }
  }

  lemma {:induction false} FourBeforePath(h: Header, k: Key)
    requires PathIsName(h, k)
    ensures FirstHit(h, k, 0) == FirstHit(h, k, 4)
  {
    NamesAreNames(k);
    TypeIsNoName(h.messageType, Name(k));
    assert FirstHit(h, k, 3) == FirstHit(h, k, 4);
    assert FirstHit(h, k, 2) == FirstHit(h, k, 3);
    assert FirstHit(h, k, 1) == FirstHit(h, k, 2);
  }

  lemma {:induction false} PathIsHit(h: Header, k: Key)
    requires PathIsName(h, k)
    ensures FirstHit(h, k, 4) == Some(4)
  {
    hide Name;
    NamesAreNames(k);
  }

  lemma {:induction false} PayloadIsNext(h: Header)
    requires h.servingDigest == "" && h.tensorSpec == TensorSpec([], "")
    ensures NextAt(h, 5) == Some(7) && FieldOf(h, KEYS[7]) == Some(Num(h.payloadLength))
  {
    assert NextAt(h, 6) == NextAt(h, 7);
  }

  lemma {:induction false} OthersAreClear(h: Header, k: Key, other: Key)
    requires PathIsName(h, k) && other != k
    ensures Clear(h, other)
  {
    hide Name, Collides, FieldOf;
    forall j | 0 <= j < |KEYS| && Before(h, other, j)
      ensures !Collides(FieldOf(h, KEYS[j]).value, Name(other))
    {
      OtherIsNoHit(h, k, other, j);
    }
  }

  lemma {:induction false} OtherIsNoHit(h: Header, k: Key, other: Key, j: nat)
    requires PathIsName(h, k) && other != k && j < |KEYS| && FieldOf(h, KEYS[j]).Some?
    ensures !Collides(FieldOf(h, KEYS[j]).value, Name(other))
  {
    hide Name, Proper, Before;
    NamesAreNames(k);
    NamesAreNames(other);
    NamesDiffer(k, other);
    TypeIsNoName(h.messageType, Name(other));
    NotEnding(Name(k), Name(other));
  }

  lemma {:induction false} OthersSurvive(h: Header, k: Key)
    requires PathIsName(h, k)
    ensures forall other: Key | other != k :: Survives(h, other)
  {
    hide Clear, FirstHit, Behind, TensorBehind, Name, Proper;
    HitIsPath(h, k);
  }

  /** The word `class_count` as path: the payload length is read for the class count, so the header comes back
      exactly if the two are the same. */
  lemma {:induction false} NameInPathIsMisread(h: Header, h0: Header)
    requires PathIsName(h, ClassCount) && |HeaderText(h)| <= MAX_HEADER_BYTES
    ensures ParseHeader(HeaderText(h), h0) == Parsed(true, Arriving(h), "") <==>
            ToInt32(OrZero(Stored(h.payloadLength))) == h.classCount
  {
    hide ParseHeader, HeaderText, Survives, Name, ToInt32, Arriving;
    PathIsProper(h, ClassCount);
    OthersSurvive(h, ClassCount);
    CountBehindPath(h);
    ReaderInvertsPrinter(h, h0);
  }

  lemma {:induction false} PathIsProper(h: Header, k: Key)
    requires PathIsName(h, k)
    ensures Proper(h)
  {
  }

  lemma {:induction false} CountBehindPath(h: Header)
    requires PathIsName(h, ClassCount)
    ensures Survives(h, ClassCount) <==> ToInt32(OrZero(Stored(h.payloadLength))) == h.classCount
  {
    hide Clear, FirstHit, Behind, TensorBehind, Name, Proper;
    HitIsPath(h, ClassCount);
  }

  /** The word `error_code` as path does no harm: where the reader looks for the error code stands a number. */
  lemma {:induction false} NameInPathIsHarmless(h: Header, h0: Header)
    requires PathIsName(h, ErrorCode) && |HeaderText(h)| <= MAX_HEADER_BYTES
    ensures ParseHeader(HeaderText(h), h0) == Parsed(true, Arriving(h), "")
  {
    hide ParseHeader, HeaderText, Survives, Name, Arriving;
    PathIsProper(h, ErrorCode);
    OthersSurvive(h, ErrorCode);
    CodeBehindPath(h);
    ReaderInvertsPrinter(h, h0);
  }

  lemma {:induction false} CodeBehindPath(h: Header)
    requires PathIsName(h, ErrorCode)
    ensures Survives(h, ErrorCode)
  {
    hide Clear, FirstHit, Behind, TensorBehind, Name, Proper;
    HitIsPath(h, ErrorCode);
  }
}
