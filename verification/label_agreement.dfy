/** How the deployed decoding (deployment/inference.py) reads the class
    indices the training encoding (training/meld_dataset.py) produces. The
    deployed maps claim to match training; they do not. `TrainingLabels` is
    the decoding that does. */
module LabelAgreement {
  import MeldDataset
  import Inference

  /** The deployed maps give back a training label only for anger, disgust
      and fear: a clip labelled neutral in training (index 6) is reported as
      surprise, and no sentiment is reported as itself (positive, index 0,
      is reported as negative). */
  lemma DeployedMapsMisreadTraining()
    ensures Inference.DeployedLabels.emotions[MeldDataset.EmotionIndex["neutral"]] == "surprise"
    ensures Inference.DeployedLabels.sentiments[MeldDataset.SentimentIndex["positive"]] == "negative"
    ensures forall l :: l in MeldDataset.EmotionIndex ==>
      (Inference.DeployedLabels.emotions[MeldDataset.EmotionIndex[l]] == l <==> l == "anger" || l == "disgust" || l == "fear")
    ensures forall l :: l in MeldDataset.SentimentIndex ==>
      Inference.DeployedLabels.sentiments[MeldDataset.SentimentIndex[l]] != l
  {
    assert MeldDataset.EmotionIndex.Keys ==
      {"anger", "disgust", "fear", "happiness", "sadness", "surprise", "neutral"};
    assert MeldDataset.SentimentIndex.Keys == {"positive", "negative", "neutral"};
  }

  /** The inverse of the training encodings. */
  const TrainingLabels: Inference.LabelMaps := Inference.LabelMaps(
    map[0 := "anger", 1 := "disgust", 2 := "fear", 3 := "happiness", 4 := "sadness", 5 := "surprise", 6 := "neutral"],
    map[0 := "positive", 1 := "negative", 2 := "neutral"])

  /** Decoding with `TrainingLabels` gives back every training label, on the
      same index domains the deployed maps use. */
  lemma TrainingLabelsRoundTrip()
    ensures forall l :: l in MeldDataset.EmotionIndex ==>
      MeldDataset.EmotionIndex[l] in TrainingLabels.emotions &&
      TrainingLabels.emotions[MeldDataset.EmotionIndex[l]] == l
    ensures forall l :: l in MeldDataset.SentimentIndex ==>
      MeldDataset.SentimentIndex[l] in TrainingLabels.sentiments &&
      TrainingLabels.sentiments[MeldDataset.SentimentIndex[l]] == l
    ensures TrainingLabels.emotions.Keys == Inference.DeployedLabels.emotions.Keys
    ensures TrainingLabels.sentiments.Keys == Inference.DeployedLabels.sentiments.Keys
  {
    assert MeldDataset.EmotionIndex.Keys ==
      {"anger", "disgust", "fear", "happiness", "sadness", "surprise", "neutral"};
    assert MeldDataset.SentimentIndex.Keys == {"positive", "negative", "neutral"};
  }
}
