/** The JSON schema of the `data` part of a person update, as schema data,
    and the rules it amounts to, written out. */
module PersonDetectionSchemas {
  import opened Wrappers
  import opened JsValues
  import opened Schemas

  /** An object with three required numeric properties. */
  function Vector(a: string, b: string, c: string): Schema {
    SObject([(a, SNumber), (b, SNumber), (c, SNumber)], [a, b, c])
  }

  const HeadSchema: Schema := SObject([("looking_at_screen", SNumber)], [])

  const BehaviorSchema: Schema := SObject([("head", HeadSchema)], [])

  const RollingSchema: Schema :=
    SObject([("age", SNumber), ("gender", SString(Some(["male", "female"])))], [])

  const DistributionsSchema: Schema :=
    SObject([
      ("age", SArray(SNumber, Some(101), Some(101))),
      ("gender", SObject([("male", SNumber), ("female", SNumber)], ["male", "female"]))
    ], [])

  const EmbeddingSchema: Schema :=
    SObject([
      ("face_embeddings", SArray(SNumber, None, None)),
      ("image_quality_score", SNumber)
    ], [])

  /** `PersonDetectionSchema`. */
  const PersonDetectionSchema: Schema :=
    SObject([
      ("record_type", SString(Some(["person"]))),
      ("local_timestamp", SNumber),
      ("person_id", SString(None)),
      ("person_put_id", SString(None)),
      ("camera_id", SString(None)),
      ("looking_at_screen", SNumber),
      ("coordinates", Vector("x", "y", "z")),
      ("velocity", Vector("vx", "vy", "vz")),
      ("behavior", BehaviorSchema),
      ("rolling_expected_values", RollingSchema),
      ("distributions", DistributionsSchema),
      ("best_face_embedding", EmbeddingSchema)
    ], ["record_type", "local_timestamp", "person_id", "person_put_id", "coordinates"])

  // The rules, property by property.

  predicate IsNumber(j: Json) {
    j.JNum?
  }

  predicate IsString(j: Json) {
    j.JStr?
  }

  /** An optional property: absent, or present and satisfying `p`. */
  predicate Optional(j: Json, key: string, p: Json -> bool)
    requires j.JObj?
  {
    key in j.fields ==> p(j.fields[key])
  }

  predicate ValidVector(j: Json, a: string, b: string, c: string) {
    && j.JObj?
    && a in j.fields && j.fields[a].JNum?
    && b in j.fields && j.fields[b].JNum?
    && c in j.fields && j.fields[c].JNum?
  }

  predicate ValidHead(j: Json) {
    j.JObj? && Optional(j, "looking_at_screen", IsNumber)
  }

  predicate ValidBehavior(j: Json) {
    j.JObj? && ("head" in j.fields ==> ValidHead(j.fields["head"]))
  }

  predicate IsGender(j: Json) {
    j == JStr("male") || j == JStr("female")
  }

  predicate ValidRolling(j: Json) {
    j.JObj? && Optional(j, "age", IsNumber) && Optional(j, "gender", IsGender)
  }

  /** An array of exactly 101 numbers (one probability per year of age). */
  predicate IsAgeDistribution(j: Json) {
    j.JArr? && |j.items| == 101 && forall i :: 0 <= i < |j.items| ==> j.items[i].JNum?
  }

  predicate ValidDistributions(j: Json) {
    && j.JObj?
    && Optional(j, "age", IsAgeDistribution)
    && ("gender" in j.fields ==> ValidVectorPair(j.fields["gender"]))
  }

  /** The gender distribution: required numeric `male` and `female`. */
  predicate ValidVectorPair(j: Json) {
    && j.JObj?
    && "male" in j.fields && j.fields["male"].JNum?
    && "female" in j.fields && j.fields["female"].JNum?
  }

  predicate IsNumberArray(j: Json) {
    j.JArr? && forall i :: 0 <= i < |j.items| ==> j.items[i].JNum?
  }

  predicate ValidEmbedding(j: Json) {
    j.JObj? && Optional(j, "face_embeddings", IsNumberArray) && Optional(j, "image_quality_score", IsNumber)
  }

  /** A valid person record: an object whose `record_type` is "person",
      with a numeric `local_timestamp`, string `person_id` and
      `person_put_id`, and `coordinates` with numeric x, y, z; every
      optional property, when present, has its declared shape. */
  predicate ValidRecord(j: Json) {
    && j.JObj?
    && "record_type" in j.fields && j.fields["record_type"] == JStr("person")
    && "local_timestamp" in j.fields && j.fields["local_timestamp"].JNum?
    && "person_id" in j.fields && j.fields["person_id"].JStr?
    && "person_put_id" in j.fields && j.fields["person_put_id"].JStr?
    && "coordinates" in j.fields && ValidVector(j.fields["coordinates"], "x", "y", "z")
    && Optional(j, "camera_id", IsString)
    && Optional(j, "looking_at_screen", IsNumber)
    && ("velocity" in j.fields ==> ValidVector(j.fields["velocity"], "vx", "vy", "vz"))
    && ("behavior" in j.fields ==> ValidBehavior(j.fields["behavior"]))
    && ("rolling_expected_values" in j.fields ==> ValidRolling(j.fields["rolling_expected_values"]))
    && ("distributions" in j.fields ==> ValidDistributions(j.fields["distributions"]))
    && ("best_face_embedding" in j.fields ==> ValidEmbedding(j.fields["best_face_embedding"]))
  }

  // Each part of the schema means its rule.

  lemma {:induction false} VectorMeaning(j: Json, a: string, b: string, c: string)
    ensures Conforms(j, Vector(a, b, c)) <==> ValidVector(j, a, b, c)
  {
    var s := Vector(a, b, c);
    if Conforms(j, s) {
      assert s.props[0].0 == a && s.props[1].0 == b && s.props[2].0 == c;
    }
    if ValidVector(j, a, b, c) {
      forall i | 0 <= i < |s.props|
        ensures s.props[i].0 in j.fields ==> Conforms(j.fields[s.props[i].0], s.props[i].1)
      {
        assert i == 0 || i == 1 || i == 2;
      }
    }
  }

  lemma {:induction false} HeadMeaning(j: Json)
    ensures Conforms(j, HeadSchema) <==> ValidHead(j)
  {
    if ValidHead(j) {
      forall i | 0 <= i < |HeadSchema.props|
        ensures HeadSchema.props[i].0 in j.fields ==> Conforms(j.fields[HeadSchema.props[i].0], HeadSchema.props[i].1)
      {
        assert i == 0;
      }
    }
    if Conforms(j, HeadSchema) {
      assert HeadSchema.props[0].0 == "looking_at_screen";
    }
  }

  lemma {:induction false} BehaviorMeaning(j: Json)
    ensures Conforms(j, BehaviorSchema) <==> ValidBehavior(j)
  {
    if j.JObj? && "head" in j.fields {
      HeadMeaning(j.fields["head"]);
    }
    if ValidBehavior(j) {
      forall i | 0 <= i < |BehaviorSchema.props|
        ensures BehaviorSchema.props[i].0 in j.fields ==> Conforms(j.fields[BehaviorSchema.props[i].0], BehaviorSchema.props[i].1)
      {
        assert i == 0;
      }
    }
    if Conforms(j, BehaviorSchema) {
      assert BehaviorSchema.props[0].0 == "head";
    }
  }

  lemma {:induction false} RollingMeaning(j: Json)
    ensures Conforms(j, RollingSchema) <==> ValidRolling(j)
  {
    var s := RollingSchema;
    if ValidRolling(j) {
      forall i | 0 <= i < |s.props|
        ensures s.props[i].0 in j.fields ==> Conforms(j.fields[s.props[i].0], s.props[i].1)
      {
        assert i == 0 || i == 1;
      }
    }
    if Conforms(j, s) {
      assert s.props[0].0 == "age" && s.props[1].0 == "gender";
    }
  }

  lemma {:induction false} NumberArrayMeaning(j: Json, lo: Option<nat>, hi: Option<nat>)
    ensures Conforms(j, SArray(SNumber, lo, hi)) <==>
              IsNumberArray(j) && (lo.None? || |j.items| >= lo.value) && (hi.None? || |j.items| <= hi.value)
  {
  }

  lemma {:induction false} DistributionsMeaning(j: Json)
    ensures Conforms(j, DistributionsSchema) <==> ValidDistributions(j)
  {
    var s := DistributionsSchema;
    if j.JObj? && "age" in j.fields {
      NumberArrayMeaning(j.fields["age"], Some(101), Some(101));
    }
    if j.JObj? && "gender" in j.fields {
      var g := j.fields["gender"];
      var gs := s.props[1].1;
      if Conforms(g, gs) {
        assert gs.props[0].0 == "male" && gs.props[1].0 == "female";
      }
      if ValidVectorPair(g) {
        forall i | 0 <= i < |gs.props|
          ensures gs.props[i].0 in g.fields ==> Conforms(g.fields[gs.props[i].0], gs.props[i].1)
        {
          assert i == 0 || i == 1;
        }
      }
    }
    if ValidDistributions(j) {
      forall i | 0 <= i < |s.props|
        ensures s.props[i].0 in j.fields ==> Conforms(j.fields[s.props[i].0], s.props[i].1)
      {
        assert i == 0 || i == 1;
      }
    }
    if Conforms(j, s) {
      assert s.props[0].0 == "age" && s.props[1].0 == "gender";
    }
  }

  lemma {:induction false} EmbeddingMeaning(j: Json)
    ensures Conforms(j, EmbeddingSchema) <==> ValidEmbedding(j)
  {
    var s := EmbeddingSchema;
    if j.JObj? && "face_embeddings" in j.fields {
      NumberArrayMeaning(j.fields["face_embeddings"], None, None);
    }
    if ValidEmbedding(j) {
      forall i | 0 <= i < |s.props|
        ensures s.props[i].0 in j.fields ==> Conforms(j.fields[s.props[i].0], s.props[i].1)
      {
        assert i == 0 || i == 1;
      }
    }
    if Conforms(j, s) {
      assert s.props[0].0 == "face_embeddings" && s.props[1].0 == "image_quality_score";
    }
  }

  /** The schema data and the written-out rules agree on every value. */
  lemma {:induction false} SchemaMeaning(j: Json)
    ensures Conforms(j, PersonDetectionSchema) <==> ValidRecord(j)
  {
    if Conforms(j, PersonDetectionSchema) {
      SchemaGivesRecord(j);
    }
    if ValidRecord(j) {
      RecordGivesSchema(j);
    }
  }

  lemma {:induction false} SchemaGivesRecord(j: Json)
    requires Conforms(j, PersonDetectionSchema)
    ensures ValidRecord(j)
  {
    var s := PersonDetectionSchema;
    ObjectParts(j, s, 0);
    ObjectParts(j, s, 1);
    ObjectParts(j, s, 2);
    ObjectParts(j, s, 3);
    ObjectParts(j, s, 4);
    ObjectParts(j, s, 5);
    ObjectParts(j, s, 6);
    ObjectParts(j, s, 7);
    ObjectParts(j, s, 8);
    ObjectParts(j, s, 9);
    ObjectParts(j, s, 10);
    ObjectParts(j, s, 11);
    var f := j.fields;
    assert "coordinates" in s.required;
    VectorMeaning(f["coordinates"], "x", "y", "z");
    if "velocity" in f {
      VectorMeaning(f["velocity"], "vx", "vy", "vz");
    }
    if "behavior" in f {
      BehaviorMeaning(f["behavior"]);
    }
    if "rolling_expected_values" in f {
      RollingMeaning(f["rolling_expected_values"]);
    }
    if "distributions" in f {
      DistributionsMeaning(f["distributions"]);
    }
    if "best_face_embedding" in f {
      EmbeddingMeaning(f["best_face_embedding"]);
    }
  }

  lemma {:induction false} RecordGivesSchema(j: Json)
    requires ValidRecord(j)
    ensures Conforms(j, PersonDetectionSchema)
  {
    var s := PersonDetectionSchema;
    var f := j.fields;
    forall i | 0 <= i < |s.props|
      ensures s.props[i].0 in f ==> Conforms(f[s.props[i].0], s.props[i].1)
    {
      if i == 6 {
        VectorMeaning(f["coordinates"], "x", "y", "z");
      } else if i == 7 {
        if "velocity" in f { VectorMeaning(f["velocity"], "vx", "vy", "vz"); }
      } else if i == 8 {
        if "behavior" in f { BehaviorMeaning(f["behavior"]); }
      } else if i == 9 {
        if "rolling_expected_values" in f { RollingMeaning(f["rolling_expected_values"]); }
      } else if i == 10 {
        if "distributions" in f { DistributionsMeaning(f["distributions"]); }
      } else if i == 11 {
        if "best_face_embedding" in f { EmbeddingMeaning(f["best_face_embedding"]); }
      } else {
        assert i == 0 || i == 1 || i == 2 || i == 3 || i == 4 || i == 5;
      }
    }
  }
}
